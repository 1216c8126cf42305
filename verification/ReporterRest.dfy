/** How long the reporter can go on by itself, and where it comes to rest: a measure that every step lowers, but
    for new calls and failed operations, and the bound for a reset under way. */
module ReporterRest {
  import opened ReporterProtocol
  import opened ReporterInvariant
  import opened ReporterSafety
  import opened ReporterProgress
  import opened ReporterLimits

  // ---------------------------------------------------------------- the measure

  function OnceWork(o: Once): nat {
    match o
    case AtCas => 3
    case AtPop => 2
    case AtWrite(_) => 8
    case AtRelease => 1
  }

  function ProducerWork(pc: ProducerPc): nat {
    match pc
    case Outside => 0
    case Counted(_) => 12
    case Overflow => 1
    case Committed(_) => 11
    case Sending(o) => OnceWork(o)
  }

  function LoopWork(pc: LoopPc): nat {
    match pc
    case Waiting => 0
    case CountSent => 6
    case CountDropped => 12
    case CheckReset(ok) => if ok then 5 else 11
    case MarkIdle => 4
    case LoopSending(o) => OnceWork(o)
    case Restart => 10
    case Create => 9
    case Publish(_) => 1
  }

  function ResetWork(pc: ResetPc): nat {
    match pc
    case Running => 4
    case FlagSet => 3
    case Cleared => 2
    case Joined => 1
    case Finished => 0
  }

  function ProducersWork(ps: seq<ProducerPc>): nat {
    if |ps| == 0 then 0 else ProducersWork(ps[..|ps| - 1]) + ProducerWork(ps[|ps| - 1])
  }

  // The steps that are due if nothing fails any more; a message or an operation stands for the steps it takes.
  function Work(s: State): nat {
    ProducersWork(s.producers) + LoopWork(s.loop) + ResetWork(s.resetter) + 7 * |s.outstanding| + 7 * |s.buffer|
  }

  lemma {:induction false} ProducersWorkUpdate(ps: seq<ProducerPc>, i: nat, pc: ProducerPc)
    requires i < |ps|
    ensures ProducersWork(ps[i := pc]) == ProducersWork(ps) - ProducerWork(ps[i]) + ProducerWork(pc)
  {
    hide ProducerWork;
    var init := ps[..|ps| - 1];
    if i == |ps| - 1 {
      assert ps[i := pc][..|ps| - 1] == init;
    } else {
      ProducersWorkUpdate(init, i, pc);
      assert ps[i := pc][..|ps| - 1] == init[i := pc];
    }
  }

  // What a step may add to the work: a call its steps, a failure the restart of the stream.
  function Added(a: Action): nat {
    if a.Enter? then 13 else if a.Take? && !a.ok then 6 else 0
  }

  lemma WorkStepProducer(s: State, a: Action)
    requires ProducerStep(a) && Enabled(s, a)
    ensures Work(Apply(s, a)) < Work(s) + Added(a)
  {
    hide ProducersWork;
    ProducersWorkUpdate(s.producers, a.i, Apply(s, a).producers[a.i]);
  }

  lemma WorkStepOnceProducer(s: State, a: Action)
    requires OnceStep(a) && a.t.Producer? && Enabled(s, a)
    ensures Work(Apply(s, a)) < Work(s) + Added(a)
  {
    hide ProducersWork, LoopWork;
    ProducersWorkUpdate(s.producers, a.t.i, Apply(s, a).producers[a.t.i]);
  }

  lemma WorkStepOnceLoop(s: State, a: Action)
    requires OnceStep(a) && a.t.EventLoop? && Enabled(s, a)
    ensures Work(Apply(s, a)) < Work(s) + Added(a)
  {
    hide ProducersWork;
  }

  lemma WorkStepOther(s: State, a: Action)
    requires !ProducerStep(a) && !OnceStep(a) && Enabled(s, a)
    ensures Work(Apply(s, a)) < Work(s) + Added(a)
  {
    hide ProducersWork;
  }

  lemma LoopIsTheOther(s: State, a: Action)
    requires OnceStep(a) && Enabled(s, a) && !a.t.Producer?
    ensures a.t.EventLoop?
  {
  }

  // From any state, every step but a call or a failure lowers the work.
  lemma {:induction false} WorkStep(s: State, a: Action)
    requires Enabled(s, a)
    ensures Work(Apply(s, a)) < Work(s) + Added(a)
  {
    hide Enabled, Apply, Work;
    if ProducerStep(a) { WorkStepProducer(s, a); }
    else if OnceStep(a) && a.t.Producer? { WorkStepOnceProducer(s, a); }
    else if OnceStep(a) { LoopIsTheOther(s, a); WorkStepOnceLoop(s, a); }
    else { WorkStepOther(s, a); }
  }

  // ---------------------------------------------------------------- runs are bounded

  function Calls(acts: seq<Action>): nat {
    if |acts| == 0 then 0
    else Calls(acts[..|acts| - 1]) + (if acts[|acts| - 1].Enter? then 1 else 0)
  }

  // The total counts the calls, and nothing else, from the start.
  lemma {:induction false} TotalIsCalls(n: nat, acts: seq<Action>)
    requires Run(Init(n), acts).Some?
    ensures Run(Init(n), acts).value.total == Calls(acts)
  {
    hide Apply, Enabled;
    if |acts| == 0 {
      NothingCounted(n);
    } else {
      TotalIsCalls(n, acts[..|acts| - 1]);
      TotalStep(Run(Init(n), acts[..|acts| - 1]).value, acts[|acts| - 1]);
    }
  }

  lemma NothingCounted(n: nat)
    ensures Init(n).total == 0
  {
  }

  lemma TotalStep(s: State, a: Action)
    requires Enabled(s, a)
    ensures Apply(s, a).total == s.total + (if a.Enter? then 1 else 0)
  {
    hide MoveOnce;
  }

  function Failures(acts: seq<Action>): nat {
    if |acts| == 0 then 0
    else
      var a := acts[|acts| - 1];
      Failures(acts[..|acts| - 1]) + (if a.Take? && !a.ok then 1 else 0)
  }

  // The steps of every run are paid for by the work there was, its calls and its failures: with finitely many
  // of these, the reporter does not go on for ever.
  lemma {:induction false} RunIsBounded(s: State, acts: seq<Action>)
    requires Run(s, acts).Some?
    ensures |acts| + Work(Run(s, acts).value) <= Work(s) + 13 * Calls(acts) + 6 * Failures(acts)
  {
    hide Enabled, Apply, Work;
    if |acts| > 0 {
      RunIsBounded(s, acts[..|acts| - 1]);
      WorkStep(Run(s, acts[..|acts| - 1]).value, acts[|acts| - 1]);
    }
  }

  // ---------------------------------------------------------------- where it rests

  // Nothing can happen but a new call from outside.
  ghost predicate AtRest(s: State) {
    forall a :: Enabled(s, a) ==> a.Enter? || a.SetReset?
  }

  // Before a reset, a run that has come to rest has written every message it pushed, unless some still wait; and
  // then it has a late release.
  lemma {:induction false} RestsEmptyOrLate(n: nat, acts: seq<Action>)
    requires Run(Init(n), acts).Some? && SetReset !in acts && AtRest(Run(Init(n), acts).value)
    ensures var s := Run(Init(n), acts).value;
            && s.idle && s.outstanding == []
            && (s.buffer == [] ==> Written(s.log) == s.pushed)
            && (s.buffer != [] ==> !NoLateRelease(acts))
  {
    hide Enabled, Apply, NoLateRelease, Written;
    var s := Run(Init(n), acts).value;
    assert Reachable(n, s);
    ResetIsScheduled(n, acts);
    RestsOnlyIdle(n, s);
    if s.buffer != [] {
      NobodyAtCas(s);
      WorkConservation(n, acts);
    } else {
      FifoDelivery(n, s);
      NothingPopped(s);
    }
  }

  lemma NobodyAtCas(s: State)
    requires AllOutside(s) && s.loop.Waiting?
    ensures !SomeoneAtCas(s)
  {
  }

  lemma NothingPopped(s: State)
    requires AllOutside(s) && s.loop.Waiting?
    ensures Popped(s) == []
  {
    NoHand(s.producers);
  }

  // ---------------------------------------------------------------- a reset under way

  // Until `resetClient` is through, some step is possible.
  lemma {:induction false} ResetGoesOn(n: nat, s: State) returns (a: Action)
    requires Reachable(n, s) && s.clientReset && !s.resetter.Finished?
    ensures Enabled(s, a)
  {
    hide Reachable, StreamInv, DeliveryInv, CounterInv, SizeInv;
    var k := ReachableInv(n, s);
    if !s.loop.Waiting? {
      a := NextOfLoop(s);
    } else if s.resetter.FlagSet? {
      a := ClearBuffer;
    } else if s.resetter.Joined? {
      a := DeleteStream;
    } else {
      a := if s.outstanding == [] then JoinLoop else Take(0, true);
    }
  }

  // Inside a callback the event loop never waits.
  function NextOfLoop(s: State): (a: Action)
    requires !s.loop.Waiting?
    ensures Enabled(s, a) && Actor(a) == EventLoop
  {
    match s.loop
    case CountSent => CountResult
    case CountDropped => CountResult
    case CheckReset(_) => LoadReset
    case MarkIdle => StoreIdleAfterOk
    case LoopSending(AtCas) => CompareAndSwap(EventLoop)
    case LoopSending(AtPop) => PopFront(EventLoop)
    case LoopSending(AtWrite(_)) => WriteMessage(EventLoop)
    case LoopSending(AtRelease) => StoreIdle(EventLoop)
    case Restart => ResetStream
    case Create => CreateStream
    case Publish(_) => PublishStream
  }

  // The steps a callback can still take when the client is reset, with those for the operation it posts.
  function LastWork(pc: LoopPc): nat {
    match pc
    case Waiting => 0
    case CountSent => 2
    case CountDropped => 2
    case CheckReset(_) => 1
    case MarkIdle => 7
    case LoopSending(AtCas) => 6
    case LoopSending(AtPop) => 5
    case LoopSending(AtWrite(_)) => 4
    case LoopSending(AtRelease) => 1
    case Restart => 6
    case Create => 5
    case Publish(_) => 1
  }

  function WorkToFinish(s: State): nat {
    LastWork(s.loop) + 3 * |s.outstanding| + ResetWork(s.resetter)
  }

  lemma FinishStep(s: State, a: Action)
    requires ResetInv(s) && s.clientReset && Enabled(s, a)
    ensures WorkToFinish(Apply(s, a)) < WorkToFinish(s)
  {
  }

  lemma FinishBound(s: State, k: Token)
    requires TokenAt(s, k) && ResetInv(s) && s.clientReset
    ensures WorkToFinish(s) <= 12
  {
  }

  lemma {:induction false} FinishRun(s: State, acts: seq<Action>)
    requires ResetInv(s) && s.clientReset && Run(s, acts).Some?
    ensures var r := Run(s, acts).value; ResetInv(r) && r.clientReset
    ensures |acts| + WorkToFinish(Run(s, acts).value) <= WorkToFinish(s)
  {
    hide Enabled, Apply, ResetInv, WorkToFinish;
    if |acts| > 0 {
      var q, a := Run(s, acts[..|acts| - 1]).value, acts[|acts| - 1];
      FinishRun(s, acts[..|acts| - 1]);
      FinishStep(q, a);
      ResetStep(q, a);
      ResetFlagStep(q, a);
    }
  }

  // `resetClient` finishes: once the flag is set, every run is at most 12 steps long, whatever the outcomes, and
  // ends only when the reset is through.
  lemma {:induction false} ResetFinishes(n: nat, s: State, acts: seq<Action>)
    requires Reachable(n, s) && s.clientReset && Run(s, acts).Some?
    ensures |acts| <= 12
    ensures (forall a :: !Enabled(Run(s, acts).value, a)) <==> Run(s, acts).value.resetter.Finished?
  {
    hide Reachable, Run, Enabled, TokenAt, ResetInv, StreamInv, DeliveryInv, CounterInv, SizeInv;
    var k := ReachableInv(n, s);
    FinishBound(s, k);
    FinishRun(s, acts);
    var r := Run(s, acts).value;
    ReachableRun(n, s, acts);
    if r.resetter.Finished? {
      ShutdownAccounting(n, r);
    } else {
      var a := ResetGoesOn(n, r);
    }
  }
}
