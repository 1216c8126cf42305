/** Every run in which nobody calls the reporter: whatever the completion queue answers, the event loop's callbacks
    come to what a script of those answers comes to. */
module ReporterAlone {
  import opened Wrappers
  import opened ReporterProtocol
  import opened ReporterInvariant
  import opened ReporterProgress

  // No call of `sendMessage` or `resetClient` starts in these steps.
  predicate NoCalls(acts: seq<Action>) {
    forall k :: 0 <= k < |acts| ==> !acts[k].Enter? && !acts[k].SetReset?
  }

  // The outcomes that the completion queue returns in these steps.
  function Outcomes(acts: seq<Action>): seq<bool> {
    if |acts| == 0 then []
    else
      var init, a := acts[..|acts| - 1], acts[|acts| - 1];
      if a.Take? then Outcomes(init) + [a.ok] else Outcomes(init)
  }

  // Only the event loop is in the middle of anything: a callback owns the stream, or has just given it up.
  predicate Alone(s: State) {
    && AllOutside(s) && s.resetter.Running? && !s.clientReset && !s.faulted
    && (s.active.Some? <==> !s.loop.Create? && !s.loop.Publish?)
    && (s.loop.Waiting? || (s.idle <==> s.loop == LoopSending(AtCas)))
    && |s.outstanding| == (if (s.loop.Waiting? && !s.idle) || s.loop.Publish? then 1 else 0)
  }

  // The state once the callback has returned, with nobody in between.
  function Settle(s: State): State
    requires Alone(s)
  {
    var r := s.(loop := Waiting);
    match s.loop
    case Waiting => s
    case CountSent => AfterBasicEvent(r.(sent := r.sent + 1), true)
    case CountDropped => AfterBasicEvent(r.(dropped := r.dropped + 1), false)
    case CheckReset(ok) => AfterBasicEvent(r, ok)
    case MarkIdle => AfterOnce(r.(idle := true))
    case LoopSending(AtCas) => AfterOnce(r)
    case LoopSending(AtPop) => AfterOnce(r.(idle := true))
    case LoopSending(AtWrite(m)) => Post(r, Write(r.active.value, m))
    case LoopSending(AtRelease) => r.(idle := true)
    case Restart => AfterStart(r)
    case Create => AfterStart(r)
    case Publish(stream) => r.(active := Some(stream))
  }

  lemma AloneOnce(s: State, a: Action)
    requires Alone(s) && Enabled(s, a) && OnceStep(a)
    ensures a.t.EventLoop? && Alone(Apply(s, a)) && Settle(Apply(s, a)) == Settle(s)
  {
  }

  lemma AloneTake(s: State, a: Action)
    requires Alone(s) && Enabled(s, a) && a.Take?
    ensures Quiet(s) && !s.idle && Alone(Apply(s, a)) && Settle(Apply(s, a)) == AfterEvent(s, a.ok)
  {
    var r := Apply(s, a);
    assert r.outstanding == [];
  }

  predicate StartStep(a: Action) {
    a.ResetStream? || a.CreateStream? || a.PublishStream?
  }

  lemma AloneStart(s: State, a: Action)
    requires Alone(s) && Enabled(s, a) && StartStep(a)
    ensures Alone(Apply(s, a)) && Settle(Apply(s, a)) == Settle(s)
  {
  }

  lemma AloneLoop(s: State, a: Action)
    requires Alone(s) && Enabled(s, a) && !OnceStep(a) && !a.Take? && !StartStep(a) && !a.Enter? && !a.SetReset?
    ensures Alone(Apply(s, a)) && Settle(Apply(s, a)) == Settle(s)
  {
  }

  // Inside a callback every step leaves alone what the callback comes to; taking the next operation comes to
  // the callback as a whole.
  lemma {:induction false} AloneStep(s: State, a: Action)
    requires Alone(s) && Enabled(s, a) && !a.Enter? && !a.SetReset?
    ensures Alone(Apply(s, a))
    ensures if a.Take? then Quiet(s) && !s.idle && Settle(Apply(s, a)) == AfterEvent(s, a.ok)
            else Settle(Apply(s, a)) == Settle(s)
  {
    hide Alone, Settle, Apply, Enabled, AfterEvent;
    if OnceStep(a) { AloneOnce(s, a); }
    else if a.Take? { AloneTake(s, a); }
    else if StartStep(a) { AloneStart(s, a); }
    else { AloneLoop(s, a); }
  }

  lemma {:induction false} PlaySnoc(s: State, script: seq<bool>, ok: bool)
    requires Quiet(s) && !Play(s, script).idle
    ensures Quiet(Play(s, script)) && Play(s, script + [ok]) == AfterEvent(Play(s, script), ok)
    decreases |script|
  {
    hide AfterEvent, AllOutside;
    if |script| == 0 {
      QuietAfterEvent(s, ok);
      assert (script + [ok])[0] == ok && (script + [ok])[1..] == [];
    } else {
      QuietAfterEvent(s, script[0]);
      PlaySnoc(AfterEvent(s, script[0]), script[1..], ok);
      assert (script + [ok])[1..] == script[1..] + [ok];
    }
  }

  lemma QuietIsAlone(s: State)
    ensures Quiet(s) ==> Alone(s) && Settle(s) == s
    ensures Alone(s) && s.loop.Waiting? ==> Settle(s) == s
  {
  }

  // Every run without calls is the play of its outcomes, up to the callback that is under way.
  lemma {:induction false} EveryRunIsPlay(s: State, acts: seq<Action>)
    requires Quiet(s) && Run(s, acts).Some? && NoCalls(acts)
    ensures var r := Run(s, acts).value;
            && Alone(r) && Settle(r) == Play(s, Outcomes(acts))
            && (r.loop.Waiting? ==> r == Play(s, Outcomes(acts)))
  {
    hide Alone, Settle, Apply, Enabled, Quiet, AfterEvent;
    if |acts| == 0 {
      QuietIsAlone(s);
    } else {
      var init, a := acts[..|acts| - 1], acts[|acts| - 1];
      EveryRunIsPlay(s, init);
      var q := Run(s, init).value;
      AloneStep(q, a);
      QuietIsAlone(q);
      QuietIsAlone(Apply(q, a));
      if a.Take? {
        PlaySnoc(s, Outcomes(init), a.ok);
      }
    }
  }

  // And it answers no more than the reporter asked.
  lemma {:induction false} OutcomesFit(s: State, acts: seq<Action>)
    requires Quiet(s) && !s.idle && Run(s, acts).Some? && NoCalls(acts)
    ensures Fits(|s.buffer|, Outcomes(acts))
  {
    hide Alone, Settle, Apply, Enabled, Quiet, AfterEvent;
    if |acts| > 0 {
      var init, a := acts[..|acts| - 1], acts[|acts| - 1];
      OutcomesFit(s, init);
      if a.Take? {
        var script := Outcomes(init);
        EveryRunIsPlay(s, init);
        AloneStep(Run(s, init).value, a);
        QuietIsAlone(Run(s, init).value);
        ScriptClosedForm(s, script);
        assert Outcomes(acts)[..|script|] == script;
        if |script| > 0 {
          OksSnoc(script[..|script| - 1], script[|script| - 1]);
          assert script == script[..|script| - 1] + [script[|script| - 1]];
        }
      }
    }
  }

  lemma {:induction false} OksSnoc(script: seq<bool>, ok: bool)
    ensures Oks(script + [ok]) == Oks(script) + (if ok then 1 else 0)
  {
    if |script| > 0 {
      OksSnoc(script[1..], ok);
      assert (script + [ok])[1..] == script[1..] + [ok];
    }
  }

  // The closed form of every run without calls, between callbacks: with n messages waiting at first and k
  // operations answered ok, the first min(n, k) messages are written, in order and across any number of failures
  // and restarts; the others wait; the flag is true exactly if k = n + 1; and the counters grew by the Writes
  // answered.
  lemma {:induction false} RunClosedForm(s: State, acts: seq<Action>)
    requires Quiet(s) && !s.idle && Run(s, acts).Some? && NoCalls(acts) && Run(s, acts).value.loop.Waiting?
    ensures var r, k := Run(s, acts).value, Min(|s.buffer|, Oks(Outcomes(acts)));
            && Written(r.log) == Written(s.log) + s.buffer[..k]
            && r.buffer == s.buffer[k..]
            && (r.idle <==> Oks(Outcomes(acts)) == |s.buffer| + 1)
    ensures var r, isWrite := Run(s, acts).value, s.outstanding[0].Write?;
            && r.sent == s.sent + WritesAnswered(Outcomes(acts), isWrite, true)
            && r.dropped == s.dropped + WritesAnswered(Outcomes(acts), isWrite, false)
            && r.total == s.total && r.pushed == s.pushed
  {
    hide Alone, Settle, Apply, Enabled, Quiet, Run, Play;
    EveryRunIsPlay(s, acts);
    OutcomesFit(s, acts);
    ScriptClosedForm(s, Outcomes(acts));
    ScriptWritesInOrder(s, Outcomes(acts));
    ScriptCounters(s, Outcomes(acts));
  }
}
