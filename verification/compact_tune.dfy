/** Measuring a rewrite and the greedy auto-tune search `_auto_tune_compact`: starting
    from the configured options, each candidate spec is parsed over the best options
    found so far, and its rewrite replaces the best one only when it measures strictly
    smaller. */
module CompactTune {
  import opened Wrappers
  import opened Text
  import opened Values
  import ConfigLoader
  import CompactSpec
  import opened CompactRewrite

  /** The token counter for the configured encoding (`len(enc.encode(text))`), or `None`
      when the tokenizer library is not installed. */
  type Tokenizer = Option<string -> nat>

  /** The metric name as `_measure_text` normalises it. */
  function MetricName(metric: string): string {
    Lower(Strip(if metric == "" then "chars" else metric))
  }

  /** `_measure_text`: the token count under the `tokens` metric when a tokenizer is
      available, the number of characters otherwise. */
  function MeasureText(text: string, metric: string, tokens: Tokenizer): (r: nat)
    ensures MetricName(metric) != "tokens" || tokens.None? ==> r == |text|
    ensures MetricName(metric) == "tokens" && tokens.Some? ==> r == tokens.value(text)
  {
    if MetricName(metric) == "tokens" && tokens.Some? then tokens.value(text) else |text|
  }

  /** The best rewrite found so far: its options, its text and its measure. */
  datatype Best = Best(options: Entries, output: string, score: nat)

  /** The rewrite of `text` under `opts`, measured. */
  function Evaluate(text: string, opts: Entries, metric: string, tokens: Tokenizer): (b: Best)
    ensures b.options == opts && b.output == Compact(text, opts)
    ensures b.score == MeasureText(b.output, metric, tokens)
  {
    var out := Compact(text, opts);
    Best(opts, out, MeasureText(out, metric, tokens))
  }

  /** A candidate that `_auto_tune_compact` skips: not a string, or blank. */
  predicate Skipped(c: Value) {
    !c.Str? || Strip(c.s) == ""
  }

  /** One candidate against the best so far, for a spec parser `parse` (the spec over
      the best options) and an evaluation `eval` of a set of options. */
  function TryCandidate(c: Value, parse: (string, Entries) -> Result<Entries>, eval: Entries -> Best, best: Best): Result<Best> {
    if Skipped(c) then Ok(best)
    else
      var opts :- parse(Strip(c.s), best.options);
      var b := eval(opts);
      Ok(if b.score < best.score then b else best)
  }

  /** The candidate loop, from the best record `best` over the candidates `cands`. */
  function Tune(cands: seq<Value>, parse: (string, Entries) -> Result<Entries>, eval: Entries -> Best, best: Best): Result<Best>
    decreases |cands|
  {
    if cands == [] then Ok(best)
    else
      var next :- TryCandidate(cands[0], parse, eval, best);
      Tune(cands[1..], parse, eval, next)
  }

  const CandidatesNotList := "router compact_auto_tune candidates must be a list"

  /** `router.compact_auto_tune` when it is a dict with `enabled` set. */
  function AutoTuneSection(config: Entries): Option<Entries> {
    var auto := GetOr(ConfigLoader.Router(config), "compact_auto_tune", Dict([]));
    if auto.Dict? && Truthy(GetOr(auto.entries, "enabled", Bool(false))) then Some(auto.entries) else None
  }

  /** The metric named by the auto-tune section (`tokens` when absent). */
  function TuneMetric(auto: Entries): string {
    Lower(Strip(ToStr(GetOr(auto, "metric", Str("tokens")))))
  }

  /** The spec parser the search uses: a candidate over the best options so far. */
  function Parser(profiles: Entries): (string, Entries) -> Result<Entries> {
    (spec: string, opts: Entries) => CompactSpec.ParseSpec(spec, opts, profiles)
  }

  /** The evaluation the search uses: rewrite and measure. */
  function Evaluator(text: string, metric: string, tokens: Tokenizer): Entries -> Best {
    (opts: Entries) => Evaluate(text, opts, metric, tokens)
  }

  /** `_auto_tune_compact(text, options, config)`. */
  function AutoTune(text: string, options: Entries, config: Entries, tokens: Tokenizer): (r: Result<string>)
    ensures text == "" ==> r == Ok("")
    ensures text != "" && AutoTuneSection(config).None? ==> r == Ok(Compact(text, options))
  {
    if text == "" then Ok(text)
    else
      match AutoTuneSection(config)
      case None => Ok(Compact(text, options))
      case Some(auto) =>
        var candidates := GetOr(auto, "candidates", List([]));
        if !candidates.List? then Err(RuntimeError(CandidatesNotList))
        else
          var profiles :- ConfigLoader.LoadCompactProfiles(config);
          var eval := Evaluator(text, TuneMetric(auto), tokens);
          var best :- Tune(candidates.items, Parser(profiles), eval, eval(options));
          Ok(best.output)
  }

  /** `_render_compact_output`: the tuned rewrite when compaction is on and the output
      is a patch, an error when compaction is on without a patch, the text otherwise. */
  function RenderCompactOutput(text: string, enabled: bool, includePatch: bool, options: Entries,
                               config: Entries, errorMessage: string, tokens: Tokenizer): (r: Result<string>)
    ensures enabled && !includePatch ==> r == Err(RuntimeError(errorMessage))
    ensures !enabled ==> r == Ok(text)
    ensures enabled && includePatch && text == "" ==> r == Ok("")
  {
    if enabled && !includePatch then Err(RuntimeError(errorMessage))
    else if enabled && includePatch then AutoTune(text, options, config, tokens)
    else Ok(text)
  }

  // ---------------------------------------------------------------------------
  // Lemmas

  /** The search keeps a best record that is the evaluation of its own options, never
      returns something larger than where it started, and moves away from its start only
      for a strictly smaller measure: a tie keeps the earlier rewrite. */
  lemma {:induction false} TuneNeverWorse(cands: seq<Value>, parse: (string, Entries) -> Result<Entries>,
                                          eval: Entries -> Best, best: Best)
    requires best == eval(best.options)
    requires forall o :: eval(o).options == o
    ensures var r := Tune(cands, parse, eval, best);
      (r.Ok? ==> (r.value == eval(r.value.options) && r.value.score <= best.score
        && (r.value == best || r.value.score < best.score)))
    decreases |cands|
  {
    if cands != [] {
      var step := TryCandidate(cands[0], parse, eval, best);
      if step.Ok? {
        TuneNeverWorse(cands[1..], parse, eval, step.value);
      }
    }
  }

  /** The search fails only when some non-blank candidate does not parse. */
  lemma {:induction false} TuneErrorFromCandidate(cands: seq<Value>, parse: (string, Entries) -> Result<Entries>,
                                                  eval: Entries -> Best, best: Best)
    requires Tune(cands, parse, eval, best).Err?
    ensures exists i, o :: (0 <= i < |cands| && !Skipped(cands[i])
      && parse(Strip(cands[i].s), o) == Err(Tune(cands, parse, eval, best).error))
    decreases |cands|
  {
    var step := TryCandidate(cands[0], parse, eval, best);
    if step.Err? {
      assert parse(Strip(cands[0].s), best.options) == Err(step.error);
    } else {
      TuneErrorFromCandidate(cands[1..], parse, eval, step.value);
      var i, o :| (0 <= i < |cands[1..]| && !Skipped(cands[1..][i])
        && parse(Strip(cands[1..][i].s), o) == Err(Tune(cands[1..], parse, eval, step.value).error));
      assert cands[i + 1] == cands[1..][i];
    }
  }

  /** Blank and non-string candidates leave the search where it is. */
  lemma {:induction false} TuneSkipsBlank(cands: seq<Value>, parse: (string, Entries) -> Result<Entries>,
                                          eval: Entries -> Best, best: Best)
    requires forall i :: 0 <= i < |cands| ==> Skipped(cands[i])
    ensures Tune(cands, parse, eval, best) == Ok(best)
    decreases |cands|
  {
    if cands != [] {
      TuneSkipsBlank(cands[1..], parse, eval, best);
    }
  }

  /** The tuned rewrite is the rewrite under some set of options, and it measures no
      more than the rewrite under the configured options. */
  lemma AutoTuneNeverWorse(text: string, options: Entries, config: Entries, tokens: Tokenizer)
    requires text != "" && AutoTuneSection(config).Some? && AutoTune(text, options, config, tokens).Ok?
    ensures var metric := TuneMetric(AutoTuneSection(config).value);
      var out := AutoTune(text, options, config, tokens).value;
      (MeasureText(out, metric, tokens) <= MeasureText(Compact(text, options), metric, tokens)
        && exists opts :: out == Compact(text, opts))
  {
    var auto := AutoTuneSection(config).value;
    var candidates := GetOr(auto, "candidates", List([]));
    var profiles := ConfigLoader.LoadCompactProfiles(config).value;
    var eval := Evaluator(text, TuneMetric(auto), tokens);
    TuneNeverWorse(candidates.items, Parser(profiles), eval, eval(options));
    var b := Tune(candidates.items, Parser(profiles), eval, eval(options)).value;
    assert b.output == Compact(text, b.options);
  }

  // ---------------------------------------------------------------------------
  // The loop

  lemma ParserApplies(profiles: Entries, spec: string, opts: Entries)
    ensures Parser(profiles)(spec, opts) == CompactSpec.ParseSpec(spec, opts, profiles)
  {
  }

  lemma EvaluatorApplies(text: string, metric: string, tokens: Tokenizer, opts: Entries)
    ensures var out := Compact(text, opts);
      Evaluator(text, metric, tokens)(opts) == Best(opts, out, MeasureText(out, metric, tokens))
  {
  }

  /** The search from position `i` after its first candidate. */
  lemma TuneStep(cands: seq<Value>, i: nat, parse: (string, Entries) -> Result<Entries>, eval: Entries -> Best, best: Best)
    requires i < |cands|
    ensures var t := TryCandidate(cands[i], parse, eval, best);
      Tune(cands[i..], parse, eval, best) == if t.Err? then Err(t.error) else Tune(cands[i + 1..], parse, eval, t.value)
  {
    assert cands[i..][0] == cands[i] && cands[i..][1..] == cands[i + 1..];
  }

  /** The candidate loop of `_auto_tune_compact`, updating the best options, output and
      score. */
  method SearchCandidates(text: string, cands: seq<Value>, profiles: Entries, metric: string,
                          tokens: Tokenizer, options: Entries) returns (r: Result<Best>)
    ensures r == Tune(cands, Parser(profiles), Evaluator(text, metric, tokens), Evaluate(text, options, metric, tokens))
  {
    ghost var parse := Parser(profiles);
    ghost var eval := Evaluator(text, metric, tokens);
    var bestOptions := options;
    var bestOutput := CompactOutput(text, bestOptions);
    var bestScore := MeasureText(bestOutput, metric, tokens);
    var i := 0;
    while i < |cands|
      invariant 0 <= i <= |cands|
      invariant Tune(cands[i..], parse, eval, Best(bestOptions, bestOutput, bestScore))
        == Tune(cands, parse, eval, Evaluate(text, options, metric, tokens))
    {
      var c := cands[i];
      TuneStep(cands, i, parse, eval, Best(bestOptions, bestOutput, bestScore));
      if c.Str? && Strip(c.s) != "" {
        var parsed := CompactSpec.ParseCompactSpec(Strip(c.s), bestOptions, profiles);
        ParserApplies(profiles, Strip(c.s), bestOptions);
        if parsed.Err? {
          return Err(parsed.error);
        }
        var candidateOutput := CompactOutput(text, parsed.value);
        var candidateScore := MeasureText(candidateOutput, metric, tokens);
        EvaluatorApplies(text, metric, tokens, parsed.value);
        if candidateScore < bestScore {
          bestScore := candidateScore;
          bestOutput := candidateOutput;
          bestOptions := parsed.value;
        }
      }
      i := i + 1;
    }
    return Ok(Best(bestOptions, bestOutput, bestScore));
  }

  /** `_auto_tune_compact`. */
  method AutoTuneCompact(text: string, options: Entries, config: Entries, tokens: Tokenizer) returns (r: Result<string>)
    ensures r == AutoTune(text, options, config, tokens)
  {
    if text == "" {
      return Ok(text);
    }
    var section := AutoTuneSection(config);
    if section.None? {
      var out := CompactOutput(text, options);
      return Ok(out);
    }
    var candidates := GetOr(section.value, "candidates", List([]));
    if !candidates.List? {
      return Err(RuntimeError(CandidatesNotList));
    }
    var loaded := ConfigLoader.LoadCompactProfiles(config);
    if loaded.Err? {
      return Err(loaded.error);
    }
    var best := SearchCandidates(text, candidates.items, loaded.value, TuneMetric(section.value), tokens, options);
    if best.Err? {
      return Err(best.error);
    }
    return Ok(best.value.output);
  }
}
