/** What holds in every state the reporter can reach, for any number of producers and every interleaving. */
module ReporterSafety {
  import opened Wrappers
  import opened ReporterProtocol
  import opened ReporterInvariant

  // ---------------------------------------------------------------- one owner

  // t is where only the owner of the stream may be: past a successful compare-and-swap, or in a callback.
  predicate Owns(s: State, t: Thread) {
    match t
    case Producer(i) => i < |s.producers| && ProducerHolds(s.producers[i])
    case EventLoop => LoopHolds(s.loop)
    case Resetter => false
  }

  ghost predicate NoOwner(s: State) {
    forall t :: !Owns(s, t)
  }

  ghost predicate OneOwner(s: State) {
    exists t :: Owns(s, t) && forall u :: Owns(s, u) ==> u == t
  }

  // Until the client is reset, exactly one holds: the flag is true, one operation is outstanding, or one
  // thread owns the stream (the event loop has posted the StartCall already when it publishes the stream).
  lemma {:induction false} SingleToken(n: nat, s: State)
    requires Reachable(n, s) && !s.clientReset
    ensures || (s.idle && s.outstanding == [] && NoOwner(s))
            || (!s.idle && |s.outstanding| == 1 && NoOwner(s))
            || (!s.idle && |s.outstanding| == (if s.loop.Publish? then 1 else 0) && OneOwner(s))
  {
    hide Reachable, StreamInv, DeliveryInv, CounterInv, SizeInv, ResetInv;
    var k := ReachableInv(n, s);
    assert forall t :: Owns(s, t) ==> k == HeldBy(t);
    if k.HeldBy? {
      assert Owns(s, k.t);
    }
  }

  // After a reset there is still at most one of them.
  lemma AtMostOneToken(n: nat, s: State, t: Thread, u: Thread)
    requires Reachable(n, s) && Owns(s, t)
    ensures !s.idle && (Owns(s, u) ==> u == t) && (s.outstanding != [] ==> s.loop.Publish?)
  {
    hide Reachable, StreamInv, DeliveryInv, CounterInv, SizeInv, ResetInv;
    var k := ReachableInv(n, s);
    assert k == HeldBy(t);
  }

  // An operation is posted only when none is outstanding.
  lemma OperationsNeverOverlap(n: nat, s: State, a: Action)
    requires Reachable(n, s) && Enabled(s, a)
    ensures |s.outstanding| <= 1
    ensures |Apply(s, a).outstanding| > |s.outstanding| ==> s.outstanding == []
  {
    hide Reachable, StreamInv, DeliveryInv, CounterInv, SizeInv, ResetInv;
    var k := ReachableInv(n, s);
    TokenFits(s, k);
    if a.WriteMessage? {
      OnceHolder(s, a, k);
    }
  }

  lemma TokenFits(s: State, k: Token)
    requires TokenAt(s, k)
    ensures |s.outstanding| <= 1 && (s.loop.Create? ==> s.outstanding == [])
  {
  }

  // No assertion of the source fails, and no null stream is used.
  lemma AssertionsHold(n: nat, s: State)
    requires Reachable(n, s)
    ensures !s.faulted
    ensures s.loop.Restart? ==> !s.idle
    ensures forall t :: OnceAt(s, t) == Some(AtPop) ==> s.active.Some?
  {
    hide Reachable, DeliveryInv, CounterInv, SizeInv, Disciplined, LoopKnows;
    var k := ReachableInv(n, s);
    forall t | OnceAt(s, t) == Some(AtPop)
      ensures s.active.Some?
    {
      OnceHolder(s, PopFront(t), k);
    }
  }

  // Reads or writes the pointer `active_stream_`.
  predicate TouchesStream(a: Action) {
    a.PopFront? || a.WriteMessage? || a.ResetStream? || a.CreateStream? || a.PublishStream? || a.DeleteStream?
  }

  // `active_stream_` is not atomic, and needs no lock: two threads are never about to touch it together.
  lemma {:induction false} NoStreamRace(n: nat, s: State, a: Action, b: Action)
    requires Reachable(n, s) && Enabled(s, a) && Enabled(s, b)
    requires TouchesStream(a) && TouchesStream(b)
    ensures Actor(a) == Actor(b)
  {
    hide Reachable, StreamInv, DeliveryInv, CounterInv, SizeInv;
    var k := ReachableInv(n, s);
    if a.DeleteStream? || b.DeleteStream? { JoinedIsQuiet(s, k); }
    if !a.DeleteStream? { TouchingNeedsToken(s, a, k); }
    if !b.DeleteStream? { TouchingNeedsToken(s, b, k); }
  }

  lemma TouchingNeedsToken(s: State, a: Action, k: Token)
    requires TokenAt(s, k) && Enabled(s, a) && TouchesStream(a) && !a.DeleteStream?
    ensures k == HeldBy(Actor(a))
  {
    if a.PopFront? || a.WriteMessage? {
      OnceHolder(s, a, k);
    }
  }

  lemma JoinedIsQuiet(s: State, k: Token)
    requires TokenAt(s, k) && ResetInv(s) && s.resetter.Joined?
    ensures !k.HeldBy?
  {
  }

  // While the client is not reset, the reporter comes to rest only with the flag true and nothing outstanding:
  // otherwise one of its threads, or an operation that is due, can go on.
  lemma {:induction false} RestsOnlyIdle(n: nat, s: State)
    requires Reachable(n, s) && !s.clientReset
    requires forall a :: Enabled(s, a) ==> a.Enter? || a.SetReset?
    ensures s.idle && s.outstanding == [] && AllOutside(s) && s.loop.Waiting?
  {
    hide Reachable, StreamInv, DeliveryInv, CounterInv, SizeInv;
    var k := ReachableInv(n, s);
    LoopAtRest(s);
    forall i | 0 <= i < |s.producers|
      ensures s.producers[i] == Outside
    {
      ProducerAtRest(s, i);
    }
    assert !Enabled(s, Take(0, true));
  }

  lemma LoopAtRest(s: State)
    requires forall a :: Enabled(s, a) ==> a.Enter? || a.SetReset?
    ensures s.loop.Waiting?
  {
    assert !Enabled(s, CountResult) && !Enabled(s, LoadReset) && !Enabled(s, StoreIdleAfterOk);
    assert !Enabled(s, ResetStream) && !Enabled(s, CreateStream) && !Enabled(s, PublishStream);
    OnceAtRest(s, EventLoop);
  }

  lemma ProducerAtRest(s: State, i: nat)
    requires i < |s.producers| && forall a :: Enabled(s, a) ==> a.Enter? || a.SetReset?
    ensures s.producers[i] == Outside
  {
    assert !Enabled(s, ReadSize(i)) && !Enabled(s, Drop(i)) && !Enabled(s, Push(i));
    OnceAtRest(s, Producer(i));
  }

  lemma OnceAtRest(s: State, t: Thread)
    requires forall a :: Enabled(s, a) ==> a.Enter? || a.SetReset?
    ensures OnceAt(s, t) == None
  {
    assert !Enabled(s, CompareAndSwap(t)) && !Enabled(s, PopFront(t)) && !Enabled(s, WriteMessage(t));
    assert !Enabled(s, StoreIdle(t));
  }

  // ---------------------------------------------------------------- streams

  // On every run, over all streams: streams are numbered in the order they are started; every Write follows
  // a StartCall of its stream that came back ok; everything posted before on that stream came back, and came
  // back ok; and a stream on which anything failed is never used again.
  lemma {:induction false} StreamDiscipline(n: nat, s: State, j: nat, k: nat)
    requires Reachable(n, s) && j < k < |s.log|
    ensures StreamOf(s.log[j]) <= StreamOf(s.log[k])
    ensures s.log[j].Returned? && !s.log[j].ok ==> StreamOf(s.log[j]) < StreamOf(s.log[k])
    ensures s.log[j].Posted? ==> s.log[j + 1].Returned? && s.log[j + 1].op == s.log[j].op
    ensures s.log[k].Posted? && s.log[k].op.Write? ==>
              exists i :: 0 <= i < k && s.log[i] == Returned(StartCall(StreamOf(s.log[k])), true)
  {
    hide Reachable, Disciplined, DeliveryInv, CounterInv, SizeInv, ResetInv, TokenAt;
    var tok := ReachableInv(n, s);
    StreamsAscend(s.log, j, k);
    FollowsAt(s.log, j + 1);
    if s.log[k].Posted? && s.log[k].op.Write? {
      StartedBefore(s.log, k);
    }
  }

  lemma FollowsAt(log: seq<Event>, k: nat)
    requires Disciplined(log) && 0 < k < |log|
    ensures Follows(log[k - 1], log[k])
  {
  }

  lemma {:induction false} StreamsAscend(log: seq<Event>, j: nat, k: nat)
    requires Disciplined(log) && j < k < |log|
    ensures StreamOf(log[j]) <= StreamOf(log[k])
    ensures log[j].Returned? && !log[j].ok ==> StreamOf(log[j]) < StreamOf(log[k])
  {
    hide Disciplined;
    FollowsAt(log, k);
    if j < k - 1 {
      StreamsAscend(log, j, k - 1);
    }
  }

  // Whatever is in progress on a stream: it has been started, except by what its StartCall itself says.
  lemma {:induction false} StartedBefore(log: seq<Event>, k: nat)
    requires Disciplined(log) && k < |log| && !(log[k].op.StartCall? && (log[k].Posted? || !log[k].ok))
    ensures exists i :: 0 <= i <= k && log[i] == Returned(StartCall(StreamOf(log[k])), true)
  {
    if !(log[k].op.StartCall?) {
      assert Follows(log[k - 1], log[k]);
      StartedBefore(log, k - 1);
    }
  }

  // ---------------------------------------------------------------- messages

  // The messages popped and not yet handed to Write, by any thread.
  function Hand(o: Once): seq<Message> {
    if o.AtWrite? then [o.msg] else []
  }

  function Hands(ps: seq<ProducerPc>): seq<Message> {
    if |ps| == 0 then []
    else Hands(ps[..|ps| - 1]) + (if ps[|ps| - 1].Sending? then Hand(ps[|ps| - 1].once) else [])
  }

  function Popped(s: State): seq<Message> {
    Hands(s.producers) + (if s.loop.LoopSending? then Hand(s.loop.once) else [])
  }

  // The queue this refines: the messages written, the one in the server's slot, and those waiting are the
  // messages pushed, in push order, across any number of streams; `resetClient` takes away from the end.
  lemma {:induction false} FifoDelivery(n: nat, s: State)
    requires Reachable(n, s)
    ensures s.pushed == Written(s.log) + Popped(s) + s.buffer + s.cleared
    ensures |Popped(s)| <= 1
    ensures !s.clientReset ==> s.cleared == []
  {
    hide Reachable, StreamInv, CounterInv, SizeInv;
    var k := ReachableInv(n, s);
    PoppedIsInHand(s, k);
  }

  // The message at each position of the writes is the message at that position of the pushes.
  lemma WrittenInOrder(n: nat, s: State, i: nat)
    requires Reachable(n, s) && i < |Written(s.log)|
    ensures i < |s.pushed| && s.pushed[i] == Written(s.log)[i]
  {
    FifoDelivery(n, s);
  }

  // A first-in first-out queue with a server that has one slot.
  datatype Queue = Queue(waiting: seq<Message>, slot: Option<Message>, served: seq<Message>)

  function QueueOf(s: State): Queue {
    Queue(s.buffer, if Popped(s) == [] then None else Some(Popped(s)[0]), Written(s.log))
  }

  // What each step of the reporter is for the queue; most are nothing.
  predicate QueueStep(s: State, a: Action, q: Queue, r: Queue)
    requires Enabled(s, a)
  {
    match a
    case Push(i) => r == q.(waiting := q.waiting + [s.producers[i].msg])
    case PopFront(_) =>
      if q.waiting == [] then r == q
      else q.slot == None && r == q.(waiting := q.waiting[1..], slot := Some(q.waiting[0]))
    case WriteMessage(_) => q.slot.Some? && r == q.(slot := None, served := q.served + [q.slot.value])
    case ClearBuffer => r == q.(waiting := [])
    case _ => r == q
  }

  // The interleaved system refines that queue, step by step.
  lemma {:induction false} RefinesQueue(n: nat, s: State, a: Action)
    requires Reachable(n, s) && Enabled(s, a)
    ensures QueueStep(s, a, QueueOf(s), QueueOf(Apply(s, a)))
  {
    hide Reachable, StreamInv, DeliveryInv, CounterInv, SizeInv, Popped, Written, ResetInv, Apply, TokenAt;
    var k := ReachableInv(n, s);
    if a.WriteMessage? {
      WriterSeesStream(s, a, k);
    }
    InvStep(s, a, k);
    PoppedIsInHand(s, k);
    PoppedIsInHand(Apply(s, a), TokenAfter(s, a, k));
    HandStep(s, a, k);
    BufferStep(s, a);
    WrittenStep(s, a);
  }

  lemma WriterSeesStream(s: State, a: Action, k: Token)
    requires a.WriteMessage? && Enabled(s, a) && TokenAt(s, k) && ResetInv(s) && StreamInv(s, k)
    ensures s.active.Some?
  {
    hide Disciplined, LoopKnows;
    OnceHolder(s, a, k);
  }

  lemma {:induction false} HandStep(s: State, a: Action, k: Token)
    requires Enabled(s, a) && TokenAt(s, k)
    ensures var h := InHand(Apply(s, a), TokenAfter(s, a, k));
            if a.PopFront? && s.buffer != [] then InHand(s, k) == [] && h == [s.buffer[0]]
            else if a.WriteMessage? then InHand(s, k) == [OnceAt(s, a.t).value.msg] && h == []
            else h == InHand(s, k)
  {
    if OnceStep(a) && !a.CompareAndSwap? {
      OnceHolder(s, a, k);
    }
  }

  lemma {:induction false} WrittenStep(s: State, a: Action)
    requires Enabled(s, a) && (a.WriteMessage? ==> s.active.Some?)
    ensures Written(Apply(s, a).log) ==
              Written(s.log) + (if a.WriteMessage? then [OnceAt(s, a.t).value.msg] else [])
  {
    var log := Apply(s, a).log;
    assert |log| > |s.log| ==> log[..|s.log|] == s.log;
  }

  lemma PoppedIsInHand(s: State, k: Token)
    requires TokenAt(s, k)
    ensures Popped(s) == InHand(s, k)
  {
    if k.HeldBy? && k.t.Producer? {
      OneHand(s.producers, k.t.i);
    } else {
      NoHand(s.producers);
    }
  }

  lemma {:induction false} NoHand(ps: seq<ProducerPc>)
    requires forall j :: 0 <= j < |ps| ==> !ProducerHolds(ps[j])
    ensures Hands(ps) == []
  {
    if |ps| > 0 {
      NoHand(ps[..|ps| - 1]);
    }
  }

  lemma {:induction false} OneHand(ps: seq<ProducerPc>, i: nat)
    requires i < |ps| && forall j :: 0 <= j < |ps| && j != i ==> !ProducerHolds(ps[j])
    ensures Hands(ps) == if ps[i].Sending? then Hand(ps[i].once) else []
  {
    if i == |ps| - 1 {
      NoHand(ps[..i]);
    } else {
      OneHand(ps[..|ps| - 1], i);
    }
  }

  // ---------------------------------------------------------------- counters

  // At every point of every interleaving, each message counted in the total is in one place.
  lemma {:induction false} CounterConservation(n: nat, s: State)
    requires Reachable(n, s)
    ensures s.total == s.dropped + s.sent + |s.buffer| + |Popped(s)| + WritesIn(s.outstanding)
                     + Counting(s.loop) + Count(s.producers, IsPending) + |s.cleared|
  {
    hide Reachable, StreamInv, DeliveryInv, SizeInv, Count, WritesIn;
    var k := ReachableInv(n, s);
    PoppedIsInHand(s, k);
  }

  // The Writes that came back with the given outcome.
  function Answered(log: seq<Event>, ok: bool): nat {
    if |log| == 0 then 0
    else
      var e := log[|log| - 1];
      Answered(log[..|log| - 1], ok) + (if e.Returned? && e.op.Write? && e.ok == ok then 1 else 0)
  }

  lemma AnsweredSnoc(log: seq<Event>, e: Event, ok: bool)
    ensures Answered(log + [e], ok)
         == Answered(log, ok) + (if e.Returned? && e.op.Write? && e.ok == ok then 1 else 0)
  {
    assert (log + [e])[..|log|] == log;
  }

  // The calls of `sendMessage` that a full buffer turned away: neither pushed nor still before their push.
  function TurnedAway(s: State): int {
    s.total - |s.pushed| - Count(s.producers, IsPending)
  }

  predicate CountersMean(s: State) {
    && s.sent + (if s.loop.CountSent? then 1 else 0) == Answered(s.log, true)
    && s.dropped + (if s.loop.CountDropped? then 1 else 0) == Answered(s.log, false) + TurnedAway(s)
  }

  // What each counter counts, at every point of every interleaving: sent, the Writes that came back ok; dropped,
  // the Writes that failed and the messages turned away; in both, but for the Write that is being counted.
  lemma {:induction false} EachCounterCounts(n: nat, s: State)
    requires Reachable(n, s)
    ensures s.sent + (if s.loop.CountSent? then 1 else 0) == Answered(s.log, true)
    ensures s.dropped + (if s.loop.CountDropped? then 1 else 0) == Answered(s.log, false) + TurnedAway(s)
  {
    var acts :| Run(Init(n), acts) == Some(s);
    CountersRun(n, acts);
  }

  lemma {:induction false} CountersRun(n: nat, acts: seq<Action>)
    requires Run(Init(n), acts).Some?
    ensures CountersMean(Run(Init(n), acts).value)
  {
    hide Apply, Enabled, CountersMean;
    if |acts| == 0 {
      CountersAtFirst(n);
    } else {
      CountersRun(n, acts[..|acts| - 1]);
      CountersStep(Run(Init(n), acts[..|acts| - 1]).value, acts[|acts| - 1]);
    }
  }

  lemma CountersAtFirst(n: nat)
    ensures CountersMean(Init(n))
  {
    NoneIn(n, IsPending);
    assert Init(n).log[..0] == [];
  }

  lemma {:induction false} CountersStep(s: State, a: Action)
    requires Enabled(s, a) && CountersMean(s)
    ensures CountersMean(Apply(s, a))
  {
    hide Apply, Enabled, CountersMean;
    if ProducerStep(a) { CountersStepProducer(s, a); }
    else if OnceStep(a) { CountersStepOnce(s, a); }
    else { CountersStepOther(s, a); }
  }

  lemma CountersStepProducer(s: State, a: Action)
    requires ProducerStep(a) && Enabled(s, a) && CountersMean(s)
    ensures CountersMean(Apply(s, a))
  {
    hide Count, Answered;
    CountUpdate(s.producers, a.i, Apply(s, a).producers[a.i], IsPending);
  }

  lemma CountersStepOnce(s: State, a: Action)
    requires OnceStep(a) && Enabled(s, a) && CountersMean(s)
    ensures CountersMean(Apply(s, a))
  {
    hide Count, Answered;
    CountStep(s, a, IsPending);
    if a.WriteMessage? && s.active.Some? {
      var e := Posted(Write(s.active.value, OnceAt(s, a.t).value.msg));
      AnsweredSnoc(s.log, e, true);
      AnsweredSnoc(s.log, e, false);
    }
  }

  lemma CountersStepOther(s: State, a: Action)
    requires !ProducerStep(a) && !OnceStep(a) && Enabled(s, a) && CountersMean(s)
    ensures CountersMean(Apply(s, a))
  {
    hide Count, Answered;
    if a.Take? {
      AnsweredSnoc(s.log, Returned(s.outstanding[a.k], a.ok), true);
      AnsweredSnoc(s.log, Returned(s.outstanding[a.k], a.ok), false);
    } else if a.CreateStream? {
      AnsweredSnoc(s.log, Posted(StartCall(s.created)), true);
      AnsweredSnoc(s.log, Posted(StartCall(s.created)), false);
    }
  }

  // Once `resetClient` is through, every message was dropped, sent or cleared, and nothing is written again.
  lemma ShutdownAccounting(n: nat, s: State)
    requires Reachable(n, s) && s.resetter.Finished?
    ensures s.total == s.dropped + s.sent + |s.cleared|
    ensures s.pushed == Written(s.log) + s.cleared
    ensures s.active == None
    ensures forall a :: !Enabled(s, a)
  {
    hide Reachable, Disciplined, LoopKnows, SizeInv;
    var k := ReachableInv(n, s);
    assert !k.HeldBy?;
    AllOutsideCountsNothing(s.producers, IsPending);
    WritesOne(StartCall(0));
  }

  lemma {:induction false} AllOutsideCountsNothing(ps: seq<ProducerPc>, p: ProducerPc -> bool)
    requires !p(Outside) && forall i :: 0 <= i < |ps| ==> ps[i] == Outside
    ensures Count(ps, p) == 0
  {
    if |ps| > 0 {
      AllOutsideCountsNothing(ps[..|ps| - 1], p);
    }
  }

  // ---------------------------------------------------------------- the size of the buffer

  // The size check and the push are two steps: with n producers the buffer can pass the limit by n.
  lemma SizeBound(n: nat, s: State)
    requires Reachable(n, s)
    ensures |s.producers| == n
    ensures |s.buffer| + Count(s.producers, IsCommitted) <= 1024 + n
  {
    hide Apply, Enabled, TokenAt, ResetInv, StreamInv, DeliveryInv, CounterInv;
    var acts :| Run(Init(n), acts) == Some(s);
    ProducersStay(n, acts);
    var k := ReachableInv(n, s);
  }

  lemma {:induction false} ProducersStay(n: nat, acts: seq<Action>)
    requires Run(Init(n), acts).Some?
    ensures |Run(Init(n), acts).value.producers| == n
  {
    hide Apply, Enabled;
    if |acts| > 0 {
      ProducersStay(n, acts[..|acts| - 1]);
      BufferStep(Run(Init(n), acts[..|acts| - 1]).value, acts[|acts| - 1]);
    }
  }
}
