/** Two promises of the reporter that interleaving bends: that waiting messages are looked after, and that the
    buffer stays within its limit.  Each with the exact condition, or the exact bound, and a run that shows it. */
module ReporterLimits {
  import opened Wrappers
  import opened ReporterProtocol
  import opened ReporterInvariant
  import opened ReporterProgress

  // ---------------------------------------------------------------- work conservation

  // Some thread is about to call `sendMessageOnce`.
  ghost predicate SomeoneAtCas(s: State) {
    exists t :: OnceAt(s, t) == Some(AtCas)
  }

  // Nobody works on waiting messages, and nobody is about to.
  ghost predicate Stranded(s: State) {
    !s.clientReset && s.idle && s.buffer != [] && !SomeoneAtCas(s)
  }

  // A thread gives the flag back over messages that wait, and no thread is about to try the flag.
  ghost predicate LateRelease(s: State, a: Action) {
    a.StoreIdle? && !s.clientReset && s.buffer != [] && !SomeoneAtCas(s)
  }

  // A step strands messages exactly if it is a late release.
  lemma {:induction false} StrandingStep(n: nat, s: State, a: Action)
    requires Reachable(n, s) && Enabled(s, a) && !Stranded(s)
    ensures Stranded(Apply(s, a)) <==> LateRelease(s, a)
  {
    hide Reachable, StreamInv, DeliveryInv, CounterInv, SizeInv, ResetInv;
    var k := ReachableInv(n, s);
    var r := Apply(s, a);
    if a.StoreIdle? {
      OthersAtCas(s, a.t);
    } else if r.idle && r.buffer != [] && !r.clientReset {
      StillAtCas(s, a, k);
    }
  }

  lemma OthersAtCas(s: State, t: Thread)
    requires OnceAt(s, t) == Some(AtRelease)
    ensures SomeoneAtCas(Apply(s, StoreIdle(t))) <==> SomeoneAtCas(s)
  {
    var r := Apply(s, StoreIdle(t));
    forall u
      ensures OnceAt(r, u) == Some(AtCas) <==> OnceAt(s, u) == Some(AtCas)
    {
    }
  }

  // Any other step that leaves the flag true and messages waiting leaves a thread before its compare-and-swap.
  lemma {:induction false} StillAtCas(s: State, a: Action, k: Token)
    requires TokenAt(s, k) && Enabled(s, a) && !Stranded(s) && !a.StoreIdle?
    requires Apply(s, a).idle && Apply(s, a).buffer != [] && !Apply(s, a).clientReset
    ensures SomeoneAtCas(Apply(s, a))
  {
    var r := Apply(s, a);
    if a.Push? {
      assert OnceAt(r, Producer(a.i)) == Some(AtCas);
    } else if a.StoreIdleAfterOk? {
      assert OnceAt(r, EventLoop) == Some(AtCas);
    } else {
      if OnceStep(a) && !a.CompareAndSwap? {
        OnceHolder(s, a, k);
      }
      assert s.idle && s.buffer != [];
      var t :| OnceAt(s, t) == Some(AtCas);
      assert OnceAt(r, t) == Some(AtCas);
    }
  }

  // ---- the cause, in the schedule

  // With this step u comes to the compare-and-swap.
  predicate Arrives(a: Action, u: Thread) {
    (a.Push? && u == Producer(a.i)) || (a.StoreIdleAfterOk? && u == EventLoop)
  }

  ghost predicate TriedAfter(acts: seq<Action>, k: nat, u: Thread) {
    exists j :: k < j < |acts| && acts[j] == CompareAndSwap(u)
  }

  // Every thread that came to the compare-and-swap has made it.
  ghost predicate AllTried(acts: seq<Action>) {
    forall k: nat, u: Thread {:trigger Arrives(acts[k], u)} ::
      k < |acts| && Arrives(acts[k], u) ==> TriedAfter(acts, k, u)
  }

  // The last arrival of u has not been followed by its compare-and-swap.
  predicate Untried(acts: seq<Action>, u: Thread) {
    |acts| > 0
    && var a := acts[|acts| - 1];
       Arrives(a, u) || (a != CompareAndSwap(u) && Untried(acts[..|acts| - 1], u))
  }

  lemma {:induction false} UntriedArrival(acts: seq<Action>, u: Thread) returns (k: nat)
    requires Untried(acts, u)
    ensures k < |acts| && Arrives(acts[k], u) && !TriedAfter(acts, k, u)
  {
    if Arrives(acts[|acts| - 1], u) {
      return |acts| - 1;
    }
    k := UntriedArrival(acts[..|acts| - 1], u);
    assert forall j :: 0 <= j < |acts| - 1 ==> acts[j] == acts[..|acts| - 1][j];
  }

  lemma {:induction false} TriedArrival(acts: seq<Action>, u: Thread, k: nat)
    requires !Untried(acts, u) && k < |acts| && Arrives(acts[k], u)
    ensures TriedAfter(acts, k, u)
  {
    var init := acts[..|acts| - 1];
    if acts[|acts| - 1] != CompareAndSwap(u) {
      TriedArrival(init, u, k);
      var j :| k < j < |init| && init[j] == CompareAndSwap(u);
      assert acts[j] == CompareAndSwap(u);
    }
  }

  ghost predicate SomeoneUntried(acts: seq<Action>) {
    exists u :: Untried(acts, u)
  }

  lemma AllTriedMeans(acts: seq<Action>)
    ensures AllTried(acts) <==> !SomeoneUntried(acts)
  {
    if SomeoneUntried(acts) {
      var u :| Untried(acts, u);
      var k := UntriedArrival(acts, u);
    } else {
      forall k: nat, u: Thread {:trigger Arrives(acts[k], u)} | k < |acts| && Arrives(acts[k], u)
        ensures TriedAfter(acts, k, u)
      {
        TriedArrival(acts, u, k);
      }
    }
  }

  // A thread is before its compare-and-swap exactly while its last arrival is untried.
  lemma {:induction false} AtCasIsUntried(n: nat, acts: seq<Action>, u: Thread)
    requires Run(Init(n), acts).Some?
    ensures OnceAt(Run(Init(n), acts).value, u) == Some(AtCas) <==> Untried(acts, u)
  {
    hide Apply, Enabled;
    if |acts| == 0 {
      NobodyAtFirst(n, u);
    } else {
      AtCasIsUntried(n, acts[..|acts| - 1], u);
      AtCasStep(Run(Init(n), acts[..|acts| - 1]).value, acts[|acts| - 1], u);
    }
  }

  lemma NobodyAtFirst(n: nat, u: Thread)
    ensures OnceAt(Init(n), u) == None && !Init(n).clientReset
  {
  }

  lemma {:induction false} AtCasStep(s: State, a: Action, u: Thread)
    requires Enabled(s, a)
    ensures OnceAt(Apply(s, a), u) == Some(AtCas)
       <==> Arrives(a, u) || (a != CompareAndSwap(u) && OnceAt(s, u) == Some(AtCas))
  {
    hide Apply, Enabled;
    if Actor(a) == u {
      OwnStep(s, a);
    } else {
      OthersKeepOnce(s, a, u);
    }
  }

  // A thread's own steps, and those of the others, inside `sendMessageOnce`.
  lemma {:induction false} OwnStep(s: State, a: Action)
    requires Enabled(s, a)
    ensures OnceAt(Apply(s, a), Actor(a)) == Some(AtCas) <==> a.Push? || a.StoreIdleAfterOk?
    ensures OnceAt(s, Actor(a)) == Some(AtCas) <==> a.CompareAndSwap?
    ensures OnceAt(Apply(s, a), Actor(a)) == Some(AtRelease) <==> a.PopFront? && s.buffer == []
  {
  }

  lemma {:induction false} OthersKeepOnce(s: State, a: Action, t: Thread)
    requires Enabled(s, a) && Actor(a) != t
    ensures OnceAt(Apply(s, a), t) == OnceAt(s, t)
  {
    if OnceStep(a) {
      hide Apply, Enabled;
      OthersKeepOnceAtOnce(s, a, t);
    }
  }

  lemma {:induction false} OthersKeepOnceAtOnce(s: State, a: Action, t: Thread)
    requires OnceStep(a) && Enabled(s, a) && a.t != t
    ensures OnceAt(Apply(s, a), t) == OnceAt(s, t)
  {
  }

  // The messages pushed since the last pop of t, and whether there are any.
  function PushedSincePop(n: nat, acts: seq<Action>, t: Thread): seq<Message>
    requires Run(Init(n), acts).Some?
  {
    if |acts| == 0 then []
    else
      var init, a := acts[..|acts| - 1], acts[|acts| - 1];
      if a == PopFront(t) then []
      else PushedSincePop(n, init, t) + (if a.Push? then [Run(Init(n), init).value.producers[a.i].msg] else [])
  }

  predicate PushSincePop(acts: seq<Action>, t: Thread) {
    |acts| > 0
    && var a := acts[|acts| - 1];
       a != PopFront(t) && (a.Push? || PushSincePop(acts[..|acts| - 1], t))
  }

  lemma {:induction false} PushSincePopMeans(n: nat, acts: seq<Action>, t: Thread)
    requires Run(Init(n), acts).Some?
    ensures PushSincePop(acts, t) <==> PushedSincePop(n, acts, t) != []
  {
    hide Apply, Enabled;
    if |acts| > 0 {
      PushSincePopMeans(n, acts[..|acts| - 1], t);
    }
  }

  // Between the empty pop of t and its release, the buffer is exactly what was pushed since that pop.
  lemma {:induction false} BufferSincePop(n: nat, acts: seq<Action>, t: Thread)
    requires Run(Init(n), acts).Some?
    requires OnceAt(Run(Init(n), acts).value, t) == Some(AtRelease) && !Run(Init(n), acts).value.clientReset
    ensures Run(Init(n), acts).value.buffer == PushedSincePop(n, acts, t)
  {
    hide Apply, Enabled, Inv;
    if |acts| == 0 {
      NobodyAtFirst(n, t);
    } else {
      var init, a := acts[..|acts| - 1], acts[|acts| - 1];
      var s := Run(Init(n), init).value;
      var k := InvRun(n, init);
      ReleaseStep(s, a, t, k);
      if a != PopFront(t) {
        BufferSincePop(n, init, t);
      }
    }
  }

  // How a thread comes to, or stays at, its release.
  lemma {:induction false} ReleaseStep(s: State, a: Action, t: Thread, k: Token)
    requires Enabled(s, a) && Inv(s, k)
    requires OnceAt(Apply(s, a), t) == Some(AtRelease) && !Apply(s, a).clientReset
    ensures !s.clientReset
    ensures a == PopFront(t) ==> Apply(s, a).buffer == []
    ensures a != PopFront(t) ==>
              && OnceAt(s, t) == Some(AtRelease)
              && Apply(s, a).buffer == s.buffer + (if a.Push? then [s.producers[a.i].msg] else [])
  {
    hide Apply, Enabled, TokenAt, StreamInv, DeliveryInv, CounterInv, SizeInv;
    ResetFlagStep(s, a);
    BufferStep(s, a);
    if Actor(a) == t {
      OwnStep(s, a);
      PopIsOwn(a);
    } else {
      OthersKeepOnce(s, a, t);
      ReleaseEnabled(s, t);
      OnceHolder(s, StoreIdle(t), k);
      if a.PopFront? {
        OnceHolder(s, a, k);
      }
      if a.ClearBuffer? {
        ClearNeedsReset(s, a);
      }
    }
  }

  lemma PopIsOwn(a: Action)
    ensures a.PopFront? ==> a == PopFront(Actor(a))
  {
  }

  lemma ClearNeedsReset(s: State, a: Action)
    requires ResetInv(s) && Enabled(s, a) && a.ClearBuffer?
    ensures s.clientReset
  {
  }

  // A release after the steps of acts is late: before any reset, something was pushed since the releasing
  // thread popped, and every thread that came to the compare-and-swap has made it.
  ghost predicate LateAfter(acts: seq<Action>, a: Action) {
    a.StoreIdle? && SetReset !in acts && PushSincePop(acts, a.t) && AllTried(acts)
  }

  // The condition on the steps is the condition on the state.
  lemma {:induction false} LateIsScheduled(n: nat, acts: seq<Action>, a: Action)
    requires Run(Init(n), acts).Some? && Enabled(Run(Init(n), acts).value, a)
    ensures LateRelease(Run(Init(n), acts).value, a) <==> LateAfter(acts, a)
  {
    hide Apply, AllTried;
    var s := Run(Init(n), acts).value;
    if a.StoreIdle? {
      AllTriedMeans(acts);
      forall u
        ensures OnceAt(s, u) == Some(AtCas) <==> Untried(acts, u)
      {
        AtCasIsUntried(n, acts, u);
      }
      assert SomeoneAtCas(s) <==> SomeoneUntried(acts);
      ResetIsScheduled(n, acts);
      if !s.clientReset {
        ReleaseEnabled(s, a.t);
        BufferSincePop(n, acts, a.t);
        PushSincePopMeans(n, acts, a.t);
      }
    }
  }

  lemma {:induction false} ResetIsScheduled(n: nat, acts: seq<Action>)
    requires Run(Init(n), acts).Some?
    ensures Run(Init(n), acts).value.clientReset <==> SetReset in acts
  {
    hide Apply, Enabled;
    if |acts| > 0 {
      var init, a := acts[..|acts| - 1], acts[|acts| - 1];
      ResetIsScheduled(n, init);
      ResetFlagStep(Run(Init(n), init).value, a);
      assert acts == init + [a];
    }
  }

  lemma {:induction false} ResetFlagStep(s: State, a: Action)
    requires Enabled(s, a)
    ensures Apply(s, a).clientReset <==> s.clientReset || a == SetReset
  {
  }

  // ---- over whole runs

  ghost predicate NeverStranded(n: nat, acts: seq<Action>)
    requires Run(Init(n), acts).Some?
  {
    !Stranded(Run(Init(n), acts).value) && (|acts| > 0 ==> NeverStranded(n, acts[..|acts| - 1]))
  }

  ghost predicate NoLateRelease(acts: seq<Action>) {
    forall k {:trigger acts[k]} :: 0 <= k < |acts| ==> !LateAfter(acts[..k], acts[k])
  }

  // Along a run, waiting messages are looked after at every point if and only if its schedule has no late
  // release.
  lemma {:induction false} WorkConservation(n: nat, acts: seq<Action>)
    requires Run(Init(n), acts).Some?
    ensures NeverStranded(n, acts) <==> NoLateRelease(acts)
  {
    hide Apply, Enabled, Stranded, LateRelease, LateAfter;
    if |acts| == 0 {
      InitNotStranded(n);
    } else {
      var init, a := acts[..|acts| - 1], acts[|acts| - 1];
      WorkConservation(n, init);
      NoLateReleaseSnoc(acts);
      var s := Run(Init(n), init).value;
      assert Reachable(n, s);
      LateIsScheduled(n, init, a);
      if NeverStranded(n, init) {
        LastNotStranded(n, init);
        StrandingStep(n, s, a);
      }
    }
  }

  lemma {:induction false} NoLateReleaseSnoc(acts: seq<Action>)
    requires |acts| > 0
    ensures var init := acts[..|acts| - 1];
            NoLateRelease(acts) <==> NoLateRelease(init) && !LateAfter(init, acts[|acts| - 1])
  {
    hide LateAfter;
    var init := acts[..|acts| - 1];
    assert forall k {:trigger init[k]} :: 0 <= k < |init| ==> init[k] == acts[k] && init[..k] == acts[..k];
    assert forall k {:trigger acts[k]} :: 0 <= k < |init| ==> init[k] == acts[k] && init[..k] == acts[..k];
  }

  lemma InitNotStranded(n: nat)
    ensures !Stranded(Init(n))
  {
  }

  lemma LastNotStranded(n: nat, acts: seq<Action>)
    requires Run(Init(n), acts).Some? && NeverStranded(n, acts)
    ensures !Stranded(Run(Init(n), acts).value)
  {
  }

  // The shape of every stranding: t pops, others step, t releases.  The pop was empty, what waits at the
  // release is what they pushed, and the release strands it exactly if they pushed something and everyone who
  // came to the compare-and-swap, before or after the pop, has made it.
  lemma {:induction false} StrandingSchedule(n: nat, pre: seq<Action>, t: Thread, mid: seq<Action>)
    requires forall k :: 0 <= k < |mid| ==> Actor(mid[k]) != t
    requires var acts := pre + [PopFront(t)] + mid;
             SetReset !in acts && Run(Init(n), acts + [StoreIdle(t)]).Some?
    ensures var acts := pre + [PopFront(t)] + mid;
            && Run(Init(n), pre).Some? && Run(Init(n), pre).value.buffer == []
            && Run(Init(n), acts).Some? && Run(Init(n), acts).value.buffer == PushedSincePop(n, acts, t)
            && (Stranded(Run(Init(n), acts + [StoreIdle(t)]).value)
                <==> (exists k :: 0 <= k < |mid| && mid[k].Push?) && AllTried(acts))
  {
    hide Apply, Enabled, Stranded, LateRelease, AllTried;
    var acts := pre + [PopFront(t)] + mid;
    assert (acts + [StoreIdle(t)])[..|acts|] == acts;
    var s := Run(Init(n), acts).value;
    ResetIsScheduled(n, acts);
    ReleaseEnabled(s, t);
    BufferSincePop(n, acts, t);
    PoppedEmpty(n, pre, t, mid);
    PushInMiddle(pre, t, mid);
    LateIsScheduled(n, acts, StoreIdle(t));
    assert Reachable(n, s);
    HolderNotStranded(n, s, t);
    StrandingStep(n, s, StoreIdle(t));
  }

  lemma {:induction false} ReleaseEnabled(s: State, t: Thread)
    ensures Enabled(s, StoreIdle(t)) <==> OnceAt(s, t) == Some(AtRelease)
  {
  }

  lemma {:induction false} HolderNotStranded(n: nat, s: State, t: Thread)
    requires Reachable(n, s) && OnceAt(s, t) == Some(AtRelease)
    ensures !Stranded(s)
  {
    hide Reachable, StreamInv, DeliveryInv, CounterInv, SizeInv, ResetInv;
    var k := ReachableInv(n, s);
    OnceHolder(s, StoreIdle(t), k);
  }

  lemma {:induction false} PoppedEmpty(n: nat, pre: seq<Action>, t: Thread, mid: seq<Action>)
    requires forall k :: 0 <= k < |mid| ==> Actor(mid[k]) != t
    requires var acts := pre + [PopFront(t)] + mid;
             Run(Init(n), acts).Some? && OnceAt(Run(Init(n), acts).value, t) == Some(AtRelease)
    ensures Run(Init(n), pre).Some? && Run(Init(n), pre).value.buffer == []
  {
    hide Apply, Enabled;
    var acts := pre + [PopFront(t)] + mid;
    if |mid| == 0 {
      assert acts[..|acts| - 1] == pre;
      EmptyPopStep(Run(Init(n), pre).value, t);
    } else {
      var init := mid[..|mid| - 1];
      assert acts[..|acts| - 1] == pre + [PopFront(t)] + init;
      OthersKeepOnce(Run(Init(n), acts[..|acts| - 1]).value, acts[|acts| - 1], t);
      PoppedEmpty(n, pre, t, init);
    }
  }

  lemma {:induction false} EmptyPopStep(s: State, t: Thread)
    requires Enabled(s, PopFront(t)) && OnceAt(Apply(s, PopFront(t)), t) == Some(AtRelease)
    ensures s.buffer == []
  {
  }

  lemma {:induction false} PushInMiddle(pre: seq<Action>, t: Thread, mid: seq<Action>)
    requires forall k :: 0 <= k < |mid| ==> Actor(mid[k]) != t
    ensures PushSincePop(pre + [PopFront(t)] + mid, t) <==> exists k :: 0 <= k < |mid| && mid[k].Push?
  {
    var acts := pre + [PopFront(t)] + mid;
    if |mid| > 0 {
      var init := mid[..|mid| - 1];
      PushInMiddle(pre, t, init);
      assert acts[..|acts| - 1] == pre + [PopFront(t)] + init;
      assert acts[|acts| - 1] == mid[|mid| - 1];
      assert forall k :: 0 <= k < |init| ==> init[k] == mid[k];
    }
  }

  // In every release of the run, the flag is given back right after the pop that found nothing.
  predicate ReleasesAtOnce(acts: seq<Action>) {
    forall k {:trigger acts[k]} :: 0 <= k < |acts| && acts[k].StoreIdle? ==> k > 0 && acts[k - 1] == PopFront(acts[k].t)
  }

  // If `sendMessageOnce` pops and releases as one step, waiting messages are always looked after.
  lemma {:induction false} OneStepConservesWork(n: nat, acts: seq<Action>)
    requires Run(Init(n), acts).Some? && ReleasesAtOnce(acts)
    ensures NoLateRelease(acts) && NeverStranded(n, acts)
  {
    hide Run, NeverStranded, AllTried;
    forall k {:trigger acts[k]} | 0 <= k < |acts|
      ensures !LateAfter(acts[..k], acts[k])
    {
      if acts[k].StoreIdle? {
        assert acts[..k][k - 1] == PopFront(acts[k].t);
      }
    }
    WorkConservation(n, acts);
  }

  // ---- the run that strands a message

  // The event loop pops from the empty buffer; a producer pushes and finds the flag taken; the event loop
  // gives the flag back.
  lemma StrandedIsReachable(m: Message) returns (s: State)
    ensures Reachable(1, s) && Stranded(s) && s.buffer == [m] && AllOutside(s)
  {
    hide Reachable;
    s := EmptyPopIsReachable(1);
    s := Step(1, s, Enter(0, m));
    s := Step(1, s, ReadSize(0));
    s := Step(1, s, Push(0));
    s := Step(1, s, CompareAndSwap(Producer(0)));
    assert s.producers == [Outside] && s.buffer == [m];
    s := Step(1, s, StoreIdle(EventLoop));
  }

  // The event loop has popped from the empty buffer and not yet given the flag back.
  lemma EmptyPopIsReachable(n: nat) returns (s: State)
    ensures Reachable(n, s) && s.loop == LoopSending(AtRelease) && s.buffer == []
    ensures AllOutside(s) && |s.producers| == n
    ensures !s.idle && s.resetter.Running? && !s.clientReset
  {
    hide Reachable;
    ReachableInit(n);
    s := Step(n, Init(n), Take(0, true));
    s := Step(n, s, LoadReset);
    s := Step(n, s, StoreIdleAfterOk);
    s := Step(n, s, CompareAndSwap(EventLoop));
    s := Step(n, s, PopFront(EventLoop));
  }

  lemma Step(n: nat, s: State, a: Action) returns (r: State)
    requires Reachable(n, s) && Enabled(s, a)
    ensures r == Apply(s, a) && Reachable(n, r)
  {
    ReachableStep(n, s, a);
    r := Apply(s, a);
  }

  // Nothing in the reporter moves a stranded message: what can happen next is a new call from outside.
  lemma StrandedIsStuck(n: nat, s: State, a: Action)
    requires Reachable(n, s) && Stranded(s) && AllOutside(s) && Enabled(s, a)
    ensures a.Enter? || a.SetReset?
  {
    hide Reachable, StreamInv, DeliveryInv, CounterInv, SizeInv;
    var k := ReachableInv(n, s);
    assert OnceAt(s, EventLoop) != Some(AtCas);
  }

  // The next undisturbed `sendMessage` does, if it finds room: it hands the oldest message to Write and queues its
  // own behind the others.  Above the limit it drops its own and changes nothing else.
  lemma {:induction false} StrandedIsRecovered(n: nat, s: State, i: nat, m: Message) returns (r: State)
    requires Reachable(n, s) && Stranded(s) && i < |s.producers| && s.producers[i].Outside?
    ensures Reachable(n, r) && Run(s, SendSteps(s, i, m)) == Some(r)
    ensures |s.buffer| <= 1024 ==>
              && s.active.Some? && r.outstanding == [Write(s.active.value, s.buffer[0])]
              && r.buffer == s.buffer[1..] + [m] && !r.idle
    ensures |s.buffer| > 1024 ==> r == s.(total := s.total + 1, dropped := s.dropped + 1)
  {
    hide Reachable, Disciplined, DeliveryInv, CounterInv, SizeInv, Run;
    var k := ReachableInv(n, s);
    assert s.outstanding == [];
    SendIsRun(s, i, m);
    r := AfterSend(s, m);
    ReachableRun(n, s, SendSteps(s, i, m));
  }

  // ---------------------------------------------------------------- the size of the buffer

  // The bound of 1024 + n messages is reached, by every number n of producers.
  lemma SizeBoundIsReached(n: nat, m: Message) returns (s: State)
    requires n > 0
    ensures Reachable(n, s) && |s.buffer| == 1024 + n
  {
    s := AllPush(n, m, n);
  }

  // While the flag is false, one producer fills the buffer to one message more than the limit, and no further.
  lemma {:induction false} Filled(n: nat, s: State, m: Message, j: nat) returns (r: State)
    requires Reachable(n, s) && |s.producers| > 0 && AllOutside(s) && s.buffer == [] && !s.idle && s.resetter.Running?
    requires j <= MAX_PENDING_MESSAGES + 1
    ensures Reachable(n, r) && |r.buffer| == j
    ensures r == s.(total := r.total, buffer := r.buffer, pushed := r.pushed)
  {
    hide Reachable, Run;
    if j == 0 {
      return s;
    }
    r := Filled(n, s, m, j - 1);
    SendIsRun(r, 0, m);
    ReachableRun(n, r, SendSteps(r, 0, m));
    r := AfterSend(r, m);
  }

  // Then the first i producers pass the size check, one after the other.
  lemma {:induction false} AllCommit(n: nat, m: Message, i: nat) returns (s: State)
    requires 0 < n && i <= n
    ensures Reachable(n, s) && |s.buffer| == MAX_PENDING_MESSAGES && |s.producers| == n && s.resetter.Running?
    ensures forall k :: 0 <= k < n ==> s.producers[k] == if k < i then Committed(m) else Outside
  {
    hide Reachable;
    if i == 0 {
      ReachableInit(n);
      s := Filled(n, Init(n), m, MAX_PENDING_MESSAGES);
    } else {
      s := AllCommit(n, m, i - 1);
      s := Step(n, s, Enter(i - 1, m));
      s := Step(n, s, ReadSize(i - 1));
    }
  }

  // Then the first i of them push.
  lemma {:induction false} AllPush(n: nat, m: Message, i: nat) returns (s: State)
    requires 0 < n && i <= n
    ensures Reachable(n, s) && |s.buffer| == MAX_PENDING_MESSAGES + i && |s.producers| == n
    ensures forall k :: i <= k < n ==> s.producers[k] == Committed(m)
  {
    hide Reachable;
    if i == 0 {
      s := AllCommit(n, m, n);
    } else {
      s := AllPush(n, m, i - 1);
      s := Step(n, s, Push(i - 1));
    }
  }
}
