/** Stranded messages above the size limit: no call gets through any more, and nothing is ever written again.  When
    that happens, and exactly which stranded states still write. */
module ReporterWedge {
  import opened Wrappers
  import opened ReporterProtocol
  import opened ReporterInvariant
  import opened ReporterSafety
  import opened ReporterProgress
  import opened ReporterLimits
  import opened ReporterRest

  predicate NobodyCommitted(s: State) {
    forall i :: 0 <= i < |s.producers| ==> !s.producers[i].Committed?
  }

  // Messages are stranded, every call will find the buffer too full, and none has passed the size check before.
  ghost predicate Wedged(s: State) {
    Stranded(s) && |s.buffer| > 1024 && NobodyCommitted(s)
  }

  // Who is where in a stranded state.
  lemma {:induction false} StrandedShape(n: nat, s: State)
    requires Reachable(n, s) && Stranded(s)
    ensures s.idle && !s.clientReset && s.resetter.Running?
    ensures s.outstanding == [] && s.loop.Waiting? && s.active.Some?
    ensures forall i :: 0 <= i < |s.producers| ==> !s.producers[i].Sending?
  {
    hide Reachable, Disciplined, LoopKnows, DeliveryInv, CounterInv, SizeInv;
    var k := ReachableInv(n, s);
    assert OnceAt(s, EventLoop) != Some(AtCas);
    assert forall i: nat :: OnceAt(s, Producer(i)) != Some(AtCas);
  }

  // ---------------------------------------------------------------- nothing is written again

  // The same without quantifying over threads.
  predicate TurnsAway(s: State) {
    && s.idle && !s.clientReset && s.resetter.Running? && s.outstanding == [] && s.loop.Waiting?
    && |s.buffer| > 1024
    && forall i :: 0 <= i < |s.producers| ==> !s.producers[i].Committed? && !s.producers[i].Sending?
  }

  lemma WedgedTurnsAway(n: nat, s: State)
    requires Reachable(n, s)
    ensures Wedged(s) <==> TurnsAway(s)
  {
    hide Reachable;
    if Wedged(s) {
      StrandedShape(n, s);
    }
  }

  // The steps of a call that is turned away.
  predicate TurnedAwayStep(a: Action) {
    a.Enter? || a.ReadSize? || a.Drop?
  }

  lemma TurnsAwayStep(s: State, a: Action)
    requires TurnsAway(s) && Enabled(s, a) && a != SetReset
    ensures TurnedAwayStep(a) && TurnsAway(Apply(s, a))
    ensures var r := Apply(s, a);
            r == s.(total := s.total + (if a.Enter? then 1 else 0), dropped := s.dropped + (if a.Drop? then 1 else 0),
                    producers := r.producers)
  {
  }

  function Drops(acts: seq<Action>): nat {
    if |acts| == 0 then 0 else Drops(acts[..|acts| - 1]) + (if acts[|acts| - 1].Drop? then 1 else 0)
  }

  lemma {:induction false} TurnsAwayRun(s: State, acts: seq<Action>)
    requires TurnsAway(s) && Run(s, acts).Some? && SetReset !in acts
    ensures TurnsAway(Run(s, acts).value)
    ensures var r := Run(s, acts).value;
            r == s.(total := s.total + Calls(acts), dropped := s.dropped + Drops(acts), producers := r.producers)
    ensures forall k :: 0 <= k < |acts| ==> TurnedAwayStep(acts[k])
  {
    hide Apply, Enabled, TurnsAway;
    if |acts| > 0 {
      var init, a := acts[..|acts| - 1], acts[|acts| - 1];
      TurnsAwayRun(s, init);
      TurnsAwayStep(Run(s, init).value, a);
      assert acts == init + [a];
    }
  }

  // However the run goes on before a reset: it consists of calls that are turned away, each call is counted and, when
  // it returns, dropped; the flag, the stream, the buffer and all events stay as they are.
  lemma {:induction false} WedgedForever(n: nat, s: State, acts: seq<Action>)
    requires Reachable(n, s) && Wedged(s) && Run(s, acts).Some? && SetReset !in acts
    ensures var r := Run(s, acts).value;
            && Wedged(r)
            && r == s.(total := s.total + Calls(acts), dropped := s.dropped + Drops(acts), producers := r.producers)
            && Calls(acts) + Count(s.producers, IsPending) == Drops(acts) + Count(r.producers, IsPending)
    ensures forall k :: 0 <= k < |acts| ==> TurnedAwayStep(acts[k])
  {
    hide Reachable, Run, TurnsAway, Wedged, Count, WritesIn;
    var r := Run(s, acts).value;
    WedgedTurnsAway(n, s);
    TurnsAwayRun(s, acts);
    ReachableRun(n, s, acts);
    WedgedTurnsAway(n, r);
    WedgedPopsNothing(n, s);
    WedgedPopsNothing(n, r);
    CounterConservation(n, s);
    CounterConservation(n, r);
  }

  lemma WedgedPopsNothing(n: nat, s: State)
    requires Reachable(n, s) && Wedged(s)
    ensures Popped(s) == []
  {
    StrandedShape(n, s);
    NoHand(s.producers);
  }

  // Also a reset writes nothing: it clears what waits.
  predicate WritesNoMore(s: State) {
    TurnsAway(s)
    || (!s.resetter.Running? && AllOutside(s) && s.loop.Waiting? && s.outstanding == [])
  }

  lemma WritesNoMoreStep(s: State, a: Action)
    requires WritesNoMore(s) && Enabled(s, a)
    ensures WritesNoMore(Apply(s, a)) && Apply(s, a).log == s.log && Apply(s, a).pushed == s.pushed
  {
    if TurnsAway(s) && a != SetReset {
      TurnsAwayStep(s, a);
    }
  }

  lemma {:induction false} WritesNoMoreRun(s: State, acts: seq<Action>)
    requires WritesNoMore(s) && Run(s, acts).Some?
    ensures var r := Run(s, acts).value; WritesNoMore(r) && r.log == s.log && r.pushed == s.pushed
  {
    hide Apply, Enabled, WritesNoMore;
    if |acts| > 0 {
      WritesNoMoreRun(s, acts[..|acts| - 1]);
      WritesNoMoreStep(Run(s, acts[..|acts| - 1]).value, acts[|acts| - 1]);
    }
  }

  // Once a reset is through, none of the messages that waited was written: all are cleared.
  lemma {:induction false} WedgedIsCleared(n: nat, s: State, acts: seq<Action>)
    requires Reachable(n, s) && Wedged(s) && Run(s, acts).Some?
    ensures var r := Run(s, acts).value;
            && r.log == s.log && r.pushed == s.pushed
            && (r.resetter.Finished? ==> r.cleared == s.buffer)
  {
    hide Reachable, Run, Wedged, TurnsAway, Written;
    var r := Run(s, acts).value;
    WedgedTurnsAway(n, s);
    WritesNoMoreRun(s, acts);
    ReachableRun(n, s, acts);
    if r.resetter.Finished? {
      ShutdownAccounting(n, r);
      FifoDelivery(n, s);
      WedgedPopsNothing(n, s);
      NotReset(s);
      assert Written(s.log) + r.cleared == Written(s.log) + s.buffer;
      assert r.cleared == (Written(s.log) + r.cleared)[|Written(s.log)|..];
    }
  }

  lemma NotReset(s: State)
    requires Wedged(s)
    ensures !s.clientReset
  {
  }

  // ---------------------------------------------------------------- which stranded states still write

  // Some run, without a reset, hands a message to Write.
  ghost predicate CanWrite(s: State) {
    exists acts :: WritesSome(s, acts)
  }

  ghost predicate WritesSome(s: State, acts: seq<Action>) {
    SetReset !in acts && Run(s, acts).Some? && |Written(Run(s, acts).value.log)| > |Written(s.log)|
  }

  // A stranded reporter can still write if and only if a call finds room, or one has passed the size check.
  lemma {:induction false} StrandedCanWrite(n: nat, s: State)
    requires Reachable(n, s) && Stranded(s)
    ensures CanWrite(s) <==> |s.buffer| <= 1024 || !NobodyCommitted(s)
  {
    hide Reachable, Run, TurnsAway, Written;
    if Wedged(s) {
      WedgedTurnsAway(n, s);
      assert WritesNoMore(s);
      forall acts | Run(s, acts).Some?
        ensures !WritesSome(s, acts)
      {
        WritesNoMoreRun(s, acts);
      }
    } else {
      StrandedShape(n, s);
      ProducersExist(n, s);
      var i, acts, r := ToCommitted(s);
      CommittedWrites(s, acts, r, i);
    }
  }

  lemma ProducersExist(n: nat, s: State)
    requires Reachable(n, s) && s.buffer != []
    ensures |s.producers| == n > 0
  {
    hide Apply, Enabled;
    var acts :| Run(Init(n), acts) == Some(s);
    ProducersStay(n, acts);
    if n == 0 {
      NoProducerNoMessage(acts);
    }
  }

  lemma {:induction false} NoProducerNoMessage(acts: seq<Action>)
    requires Run(Init(0), acts).Some?
    ensures Run(Init(0), acts).value.buffer == []
  {
    hide Apply;
    if |acts| > 0 {
      var init, a := acts[..|acts| - 1], acts[|acts| - 1];
      NoProducerNoMessage(init);
      ProducersStay(0, init);
      BufferStep(Run(Init(0), init).value, a);
    }
  }

  // A producer that has passed the size check, or one that can be brought there.
  lemma {:induction false} ToCommitted(s: State) returns (i: nat, acts: seq<Action>, r: State)
    requires Stranded(s) && s.resetter.Running? && |s.producers| > 0
    requires forall i :: 0 <= i < |s.producers| ==> !s.producers[i].Sending?
    requires |s.buffer| <= 1024 || !NobodyCommitted(s)
    ensures Run(s, acts) == Some(r) && SetReset !in acts && i < |r.producers| && r.producers[i].Committed?
    ensures r == s.(total := r.total, dropped := r.dropped, producers := r.producers)
  {
    hide Run;
    RunNothing(s);
    i, acts, r := 0, [], s;
    if !NobodyCommitted(s) {
      i :| 0 <= i < |s.producers| && s.producers[i].Committed?;
      return;
    }
    if r.producers[0].Overflow? {
      acts, r := OneStep(s, acts, r, Drop(0));
    }
    if r.producers[0].Outside? {
      acts, r := OneStep(s, acts, r, Enter(0, s.buffer[0]));
    }
    acts, r := OneStep(s, acts, r, ReadSize(0));
  }

  lemma OneStep(s: State, acts: seq<Action>, r: State, a: Action) returns (acts': seq<Action>, r': State)
    requires Run(s, acts) == Some(r) && Enabled(r, a)
    ensures acts' == acts + [a] && r' == Apply(r, a) && Run(s, acts') == Some(r')
  {
    RunSnoc(s, acts, r, a);
    acts', r' := acts + [a], Apply(r, a);
  }

  // From there, its push and its turn write the oldest message.
  lemma {:induction false} CommittedWrites(s: State, acts: seq<Action>, r: State, i: nat)
    requires Run(s, acts) == Some(r) && SetReset !in acts && i < |r.producers| && r.producers[i].Committed?
    requires r.idle && r.active.Some? && r.log == s.log
    ensures CanWrite(s)
  {
    hide Run, Written;
    var m := r.producers[i].msg;
    PushIsRun(s, acts, r, i, m);
    var t := Producer(i);
    var more := acts + [Push(i)] + [CompareAndSwap(t)] + [PopFront(t)] + [WriteMessage(t)];
    var b := r.buffer + [m];
    WrittenSnoc(r.log, Posted(Write(r.active.value, b[0])));
    assert WritesSome(s, more);
  }

  // ---------------------------------------------------------------- how it comes about

  // The only way in: a late release over more messages than the limit, when nobody is between check and push.
  lemma {:induction false} WedgingStep(n: nat, s: State, a: Action)
    requires Reachable(n, s) && Enabled(s, a) && !Wedged(s)
    ensures Wedged(Apply(s, a)) <==>
              LateRelease(s, a) && |s.buffer| > 1024 && NobodyCommitted(s)
  {
    hide Reachable, Apply, Enabled, Stranded, LateRelease;
    if Stranded(s) {
      StrandedShape(n, s);
      StrandedNotWedging(s, a);
    } else {
      StrandingStep(n, s, a);
      if a.StoreIdle? {
        ReleaseKeeps(s, a.t);
      }
      NoOtherRelease(s, a);
    }
  }

  lemma NoOtherRelease(s: State, a: Action)
    ensures LateRelease(s, a) ==> a.StoreIdle?
  {
  }

  lemma ReleaseKeeps(s: State, t: Thread)
    requires Enabled(s, StoreIdle(t))
    ensures Apply(s, StoreIdle(t)).buffer == s.buffer
    ensures NobodyCommitted(Apply(s, StoreIdle(t))) <==> NobodyCommitted(s)
  {
    var r := Apply(s, StoreIdle(t));
    assert forall i :: 0 <= i < |s.producers| ==> (r.producers[i].Committed? <==> s.producers[i].Committed?);
  }

  lemma {:induction false} StrandedNotWedging(s: State, a: Action)
    requires Stranded(s) && !Wedged(s) && Enabled(s, a)
    requires s.outstanding == [] && s.loop.Waiting?
    requires forall i :: 0 <= i < |s.producers| ==> !s.producers[i].Sending?
    ensures !Wedged(Apply(s, a)) && !LateRelease(s, a)
  {
    var r := Apply(s, a);
    if a.Push? {
      assert OnceAt(r, Producer(a.i)) == Some(AtCas);
    } else {
      assert r.buffer == s.buffer || r.buffer == [];
      if !NobodyCommitted(s) {
        var i :| 0 <= i < |s.producers| && s.producers[i].Committed?;
        assert r.producers[i].Committed?;
      }
    }
  }

  // On a run: the late release comes after more than 1024 pushes since the empty pop.
  lemma {:induction false} WedgingSchedule(n: nat, acts: seq<Action>, a: Action)
    requires Run(Init(n), acts).Some? && Enabled(Run(Init(n), acts).value, a)
    requires !Wedged(Run(Init(n), acts).value)
    ensures Wedged(Apply(Run(Init(n), acts).value, a)) <==>
              && LateAfter(acts, a)
              && |PushedSincePop(n, acts, a.t)| > 1024
              && NobodyCommitted(Run(Init(n), acts).value)
  {
    hide Apply, Wedged, AllTried, PushSincePop, LateRelease;
    var s := Run(Init(n), acts).value;
    assert Reachable(n, s);
    WedgingStep(n, s, a);
    LateIsScheduled(n, acts, a);
    if LateAfter(acts, a) {
      ResetIsScheduled(n, acts);
      BufferSincePop(n, acts, a.t);
    }
  }

  // ---------------------------------------------------------------- that it comes about

  // With any number of producers: the event loop pops from the empty buffer, one producer calls 1025 times, and
  // the event loop gives the flag back.
  lemma {:induction false} WedgedIsReachable(n: nat, m: Message) returns (s: State)
    requires n > 0
    ensures Reachable(n, s) && Wedged(s) && AllOutside(s) && |s.buffer| == 1025
  {
    hide Reachable;
    s := EmptyPopIsReachable(n);
    s := Filled(n, s, m, 1025);
    s := Step(n, s, StoreIdle(EventLoop));
  }

  // Where a run without a reset can rest: with everything written; or after a late release, with at most 1024
  // messages that some later call can get written; or, above that, with messages that none can.
  lemma {:induction false} RestIsOneOfThree(n: nat, acts: seq<Action>)
    requires Run(Init(n), acts).Some? && SetReset !in acts && AtRest(Run(Init(n), acts).value)
    ensures var s := Run(Init(n), acts).value;
            && (s.buffer == [] ==> Written(s.log) == s.pushed)
            && (s.buffer != [] ==> !NoLateRelease(acts) && (CanWrite(s) <==> |s.buffer| <= 1024))
            && (|s.buffer| > 1024 <==> Wedged(s))
  {
    hide Enabled, Apply, NoLateRelease, Written, CanWrite;
    var s := Run(Init(n), acts).value;
    assert Reachable(n, s);
    RestsEmptyOrLate(n, acts);
    ResetIsScheduled(n, acts);
    RestsOnlyIdle(n, s);
    NobodyAtCas(s);
    if s.buffer != [] {
      StrandedCanWrite(n, s);
      EmptyRest(s);
    }
  }

  lemma EmptyRest(s: State)
    requires AllOutside(s)
    ensures NobodyCommitted(s)
  {
  }
}
