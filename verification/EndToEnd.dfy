// From raw lines to written predictions.
module EndToEnd {
  import opened Bits
  import opened Options
  import opened Text
  import opened Records
  import opened Features
  import opened Pipeline
  import opened PipelineExit
  import opened PipelineTermination
  import opened Checker
  import opened CheckerCompleteness
  import C = Canonicalizer
  import R = Replay
  import opened RoundTrip

  // The engine ends without an error, having written one row per event, in order, to the checker's
  // satisfaction.
  ghost predicate Completes(env: Env, s: State) {
    && Joined(s) && !s.failed && Conserved(s) && Accepts(AttemptOf(env, s))
    && |s.scorer.rows| == |env.events|
    && forall i | 0 <= i < |env.events| :: s.scorer.rows[i].event == env.events[i]
  }

  // Any stream the replay reader accepts is a source the engine finishes, within its key budget and
  // 64-bit counters.
  lemma AcceptedStreamCompletes(stream: string, env: Env, started: Word, rounds: seq<seq<Action>>)
    requires Valid(env.config) && R.Replayed(stream) == Some(env.events)
    requires |KeysOf(env.events)| <= env.config.maxKeys && |env.events| < WORD
    requires (forall r | r in rounds :: Fair(r)) && NoAborts(Concat(rounds)) && |rounds| >= RoundsNeeded(|env.events|)
    ensures Completes(env, Run(env, Init(env, started), Concat(rounds)))
  {
    hide Valid, Run, Accepts, Conserved, Joined, R.Replayed;
    R.AcceptedIsOrdered(stream);
    assert GoodSource(env);
    GoodSourceCompletes(env, started, rounds);
  }

  // The canonical file of any well-formed raw lines with 64-bit identifiers is such a source.
  lemma CanonicalFileCompletes(toInt: IntParser, lines: seq<string>, out: C.Output, env: Env, started: Word,
                               rounds: seq<seq<Action>>)
    requires C.Parses(toInt, lines) && C.IsCanonicalization(toInt, C.DEFAULT_WINDOW, lines, out)
    requires SmallIdentifiers(Canonical(C.Candidates(toInt, C.DEFAULT_WINDOW, lines)))
    requires Valid(env.config) && R.Replayed(out.text) == Some(env.events)
    requires |KeysOf(env.events)| <= env.config.maxKeys && |env.events| < WORD
    requires (forall r | r in rounds :: Fair(r)) && NoAborts(Concat(rounds)) && |rounds| >= RoundsNeeded(|env.events|)
    ensures var xs := Canonical(C.Candidates(toInt, C.DEFAULT_WINDOW, lines));
            var s := Run(env, Init(env, started), Concat(rounds));
            && Completes(env, s) && |s.scorer.rows| == |xs|
            && forall i | 0 <= i < |xs| :: Fits(i, xs[i]) && s.scorer.rows[i].event == EventOf(i, xs[i])
  {
    hide Valid, Run, Accepts, Conserved, Joined, R.Replayed, C.IsCanonicalization, C.Candidates, Canonical, Fits,
         EventOf;
    CanonicalFileReadsBack(toInt, lines, out);
    AcceptedStreamCompletes(out.text, env, started, rounds);
  }
}
