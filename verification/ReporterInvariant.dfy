/** One inductive invariant of the reporter, and the safety results it gives over every run. */
module ReporterInvariant {
  import opened Wrappers
  import opened ReporterProtocol

  // ---------------------------------------------------------------- the token

  // Where the right to operate on the stream is: in the flag, with the operation the completion queue has,
  // with one thread, or given up by a callback that found the client reset.
  datatype Token = InFlag | InFlight | HeldBy(t: Thread) | Retired

  predicate OnceHolds(o: Once) {
    !o.AtCas?
  }

  predicate ProducerHolds(pc: ProducerPc) {
    pc.Sending? && OnceHolds(pc.once)
  }

  predicate LoopHolds(pc: LoopPc) {
    !pc.Waiting? && (pc.LoopSending? ==> OnceHolds(pc.once))
  }

  predicate TokenAt(s: State, k: Token) {
    && (s.idle <==> k == InFlag)
    && |s.outstanding| == (if k == InFlight || s.loop.Publish? then 1 else 0)
    && (forall i :: 0 <= i < |s.producers| ==> (ProducerHolds(s.producers[i]) <==> k == HeldBy(Producer(i))))
    && (LoopHolds(s.loop) <==> k == HeldBy(EventLoop))
    && (k.HeldBy? ==> !k.t.Resetter? && (k.t.Producer? ==> k.t.i < |s.producers|))
    && (k == Retired ==> s.clientReset)
  }

  function TokenAfter(s: State, a: Action, k: Token): Token
    requires Enabled(s, a)
  {
    match a
    case CompareAndSwap(t) => if s.idle then HeldBy(t) else k
    case WriteMessage(t) => InFlight
    case StoreIdle(t) => InFlag
    case Take(_, _) => HeldBy(EventLoop)
    case LoadReset => if s.clientReset then Retired else k
    case StoreIdleAfterOk => InFlag
    case PublishStream => InFlight
    case _ => k
  }

  // ---------------------------------------------------------------- the streams

  function StreamOf(e: Event): nat {
    e.op.stream
  }

  // What may follow an event: a posted operation returns; after a success the same stream is written;
  // after a failure the next stream is started.
  predicate Follows(d: Event, e: Event) {
    if d.Posted? then e.Returned? && e.op == d.op
    else if d.ok then e.Posted? && e.op.Write? && e.op.stream == d.op.stream
    else e.Posted? && e.op.StartCall? && e.op.stream == d.op.stream + 1
  }

  predicate Disciplined(log: seq<Event>) {
    && |log| > 0
    && log[0] == Posted(StartCall(0))
    && forall k {:trigger log[k]} :: 0 < k < |log| ==> Follows(log[k - 1], log[k])
  }

  function Last(log: seq<Event>): Event
    requires |log| > 0
  {
    log[|log| - 1]
  }

  // Whether the last operation has failed, as far as the event loop's position tells.
  predicate LoopKnows(pc: LoopPc, e: Event) {
    e.Returned? &&
    match pc
    case CountSent => e.op.Write? && e.ok
    case CountDropped => e.op.Write? && !e.ok
    case CheckReset(ok) => e.ok == ok
    case Restart => !e.ok
    case Create => !e.ok
    case _ => e.ok
  }

  predicate StreamInv(s: State, k: Token)
  {
    && !s.faulted
    && Disciplined(s.log)
    && s.created == StreamOf(Last(s.log)) + 1
    && (s.outstanding != [] <==> Last(s.log).Posted?)
    && (s.outstanding != [] ==> s.outstanding[0] == Last(s.log).op)
    && (s.outstanding == [] && k != Retired ==>
          LoopKnows(if k == HeldBy(EventLoop) then s.loop else Waiting, Last(s.log)))
    && (s.loop.Publish? ==> Last(s.log) == Posted(StartCall(s.loop.stream)))
    && (if s.loop.Create? || s.loop.Publish? || s.resetter.Finished? then s.active == None
        else s.active == Some(StreamOf(Last(s.log))))
  }

  // ---------------------------------------------------------------- the reset

  predicate ResetInv(s: State)
  {
    && (s.clientReset <==> !s.resetter.Running?)
    && (s.clientReset ==> AllOutside(s))
    && (s.resetter.Running? || s.resetter.FlagSet? ==> s.cleared == [])
    && (s.resetter.Cleared? || s.resetter.Joined? || s.resetter.Finished? ==> s.buffer == [])
    && (s.resetter.Joined? || s.resetter.Finished? ==> s.loop.Waiting? && s.outstanding == [])
  }

  // ---------------------------------------------------------------- preservation

  predicate ProducerStep(a: Action) {
    a.Enter? || a.ReadSize? || a.Drop? || a.Push?
  }

  predicate OnceStep(a: Action) {
    a.CompareAndSwap? || a.PopFront? || a.WriteMessage? || a.StoreIdle?
  }

  predicate ResetterStep(a: Action) {
    a.SetReset? || a.ClearBuffer? || a.JoinLoop? || a.DeleteStream?
  }

  // The holder of the token sees a stream.
  predicate HolderSeesStream(s: State) {
    s.active.None? ==> s.loop.Create? || s.loop.Publish? || s.resetter.Finished?
  }

  lemma TokenStepProducer(s: State, a: Action, k: Token)
    requires ProducerStep(a) && Enabled(s, a) && TokenAt(s, k)
    ensures TokenAt(Apply(s, a), TokenAfter(s, a, k))
  {
  }

  lemma TokenStepOnceProducer(s: State, a: Action, k: Token)
    requires OnceStep(a) && a.t.Producer?
    requires Enabled(s, a) && TokenAt(s, k) && ResetInv(s) && HolderSeesStream(s)
    ensures TokenAt(Apply(s, a), TokenAfter(s, a, k))
  {
  }

  lemma TokenStepOnceLoop(s: State, a: Action, k: Token)
    requires OnceStep(a) && !a.t.Producer?
    requires Enabled(s, a) && TokenAt(s, k) && ResetInv(s) && HolderSeesStream(s)
    ensures TokenAt(Apply(s, a), TokenAfter(s, a, k))
  {
  }

  lemma TokenStepTake(s: State, a: Action, k: Token)
    requires a.Take? && Enabled(s, a) && TokenAt(s, k)
    ensures TokenAt(Apply(s, a), TokenAfter(s, a, k))
  {
  }

  lemma TokenStepLoop(s: State, a: Action, k: Token)
    requires !ProducerStep(a) && !OnceStep(a) && !ResetterStep(a) && !a.Take?
    requires Enabled(s, a) && TokenAt(s, k)
    ensures TokenAt(Apply(s, a), TokenAfter(s, a, k))
  {
  }

  lemma TokenStepResetter(s: State, a: Action, k: Token)
    requires ResetterStep(a) && Enabled(s, a) && TokenAt(s, k)
    ensures TokenAt(Apply(s, a), TokenAfter(s, a, k))
  {
  }

  // Past the compare-and-swap, a thread in `sendMessageOnce` is the holder, and nothing is outstanding.
  lemma OnceHolder(s: State, a: Action, k: Token)
    requires OnceStep(a) && !a.CompareAndSwap? && Enabled(s, a) && TokenAt(s, k)
    ensures k == HeldBy(a.t) && s.outstanding == [] && !s.idle
  {
  }

  lemma ResetStepProducer(s: State, a: Action)
    requires ProducerStep(a) && Enabled(s, a) && ResetInv(s)
    ensures ResetInv(Apply(s, a))
  {
  }

  lemma ResetStepOnce(s: State, a: Action)
    requires OnceStep(a) && Enabled(s, a) && ResetInv(s)
    ensures ResetInv(Apply(s, a))
  {
    if a.t.Producer? {
      assert !s.clientReset;
    }
  }

  lemma ResetStepOther(s: State, a: Action)
    requires !ProducerStep(a) && !OnceStep(a) && Enabled(s, a) && ResetInv(s)
    ensures ResetInv(Apply(s, a))
  {
  }

  lemma {:induction false} ResetStep(s: State, a: Action)
    requires Enabled(s, a) && ResetInv(s)
    ensures ResetInv(Apply(s, a))
  {
    hide Enabled, Apply, ResetInv;
    if ProducerStep(a) { ResetStepProducer(s, a); }
    else if OnceStep(a) { ResetStepOnce(s, a); }
    else { ResetStepOther(s, a); }
  }

  lemma DisciplinedSnoc(log: seq<Event>, e: Event)
    requires Disciplined(log) && Follows(Last(log), e)
    ensures Disciplined(log + [e])
  {
  }

  lemma StreamStepWrite(s: State, a: Action, k: Token)
    requires a.WriteMessage?
    requires Enabled(s, a) && TokenAt(s, k) && ResetInv(s) && StreamInv(s, k)
    ensures StreamInv(Apply(s, a), TokenAfter(s, a, k))
  {
    assert |s.log| > 0;
    hide Disciplined, ResetInv;
    DisciplinedSnoc(s.log, Posted(Write(StreamOf(Last(s.log)), OnceAt(s, a.t).value.msg)));
  }

  lemma StreamStepTake(s: State, a: Action, k: Token)
    requires a.Take?
    requires Enabled(s, a) && TokenAt(s, k) && ResetInv(s) && StreamInv(s, k)
    ensures StreamInv(Apply(s, a), TokenAfter(s, a, k))
  {
    hide Disciplined, ResetInv;
    DisciplinedSnoc(s.log, Returned(s.outstanding[a.k], a.ok));
  }

  lemma StreamStepCreate(s: State, a: Action, k: Token)
    requires a.CreateStream?
    requires Enabled(s, a) && TokenAt(s, k) && ResetInv(s) && StreamInv(s, k)
    ensures StreamInv(Apply(s, a), TokenAfter(s, a, k))
  {
    hide Disciplined, ResetInv;
    DisciplinedSnoc(s.log, Posted(StartCall(s.created)));
  }

  lemma StreamStepQuiet(s: State, a: Action, k: Token)
    requires ProducerStep(a) || ResetterStep(a)
    requires Enabled(s, a) && TokenAt(s, k) && ResetInv(s) && StreamInv(s, k)
    ensures StreamInv(Apply(s, a), TokenAfter(s, a, k))
  {
    hide Disciplined, LoopKnows;
  }

  lemma StreamStepFlag(s: State, a: Action, k: Token)
    requires a.CompareAndSwap? || a.StoreIdle?
    requires Enabled(s, a) && TokenAt(s, k) && StreamInv(s, k)
    ensures StreamInv(Apply(s, a), TokenAfter(s, a, k))
  {
    hide Disciplined;
  }

  lemma StreamStepPop(s: State, a: Action, k: Token)
    requires a.PopFront?
    requires Enabled(s, a) && TokenAt(s, k) && ResetInv(s) && StreamInv(s, k)
    ensures StreamInv(Apply(s, a), TokenAfter(s, a, k))
  {
    hide Disciplined;
  }

  lemma StreamStepLoop(s: State, a: Action, k: Token)
    requires !ProducerStep(a) && !ResetterStep(a) && !OnceStep(a) && !a.Take? && !a.CreateStream?
    requires Enabled(s, a) && TokenAt(s, k) && ResetInv(s) && StreamInv(s, k)
    ensures StreamInv(Apply(s, a), TokenAfter(s, a, k))
  {
    hide Disciplined;
  }

  lemma {:induction false} StreamStep(s: State, a: Action, k: Token)
    requires Enabled(s, a) && TokenAt(s, k) && ResetInv(s) && StreamInv(s, k)
    ensures StreamInv(Apply(s, a), TokenAfter(s, a, k))
  {
    hide StreamInv, TokenAt, ResetInv, Apply, TokenAfter;
    if ProducerStep(a) || ResetterStep(a) { StreamStepQuiet(s, a, k); }
    else if a.WriteMessage? { StreamStepWrite(s, a, k); }
    else if a.CompareAndSwap? || a.StoreIdle? { StreamStepFlag(s, a, k); }
    else if a.PopFront? { StreamStepPop(s, a, k); }
    else if a.Take? { StreamStepTake(s, a, k); }
    else if a.CreateStream? { StreamStepCreate(s, a, k); }
    else { StreamStepLoop(s, a, k); }
  }

  // ---------------------------------------------------------------- delivery

  // The messages handed to Write, in order.
  function Written(log: seq<Event>): seq<Message> {
    if |log| == 0 then []
    else
      var e := log[|log| - 1];
      Written(log[..|log| - 1]) + (if e.Posted? && e.op.Write? then [e.op.msg] else [])
  }

  // The message popped by the holder of the token and not yet handed to Write.
  function InHand(s: State, k: Token): seq<Message> {
    if k.HeldBy? && OnceAt(s, k.t).Some? && OnceAt(s, k.t).value.AtWrite? then [OnceAt(s, k.t).value.msg] else []
  }

  predicate DeliveryInv(s: State, k: Token) {
    s.pushed == Written(s.log) + InHand(s, k) + s.buffer + s.cleared
  }

  lemma SeesStream(s: State, k: Token)
    requires StreamInv(s, k)
    ensures HolderSeesStream(s)
  {
    hide Disciplined;
  }

  lemma WrittenSnoc(log: seq<Event>, e: Event)
    ensures Written(log + [e]) == Written(log) + (if e.Posted? && e.op.Write? then [e.op.msg] else [])
  {
    assert (log + [e])[..|log|] == log;
  }

  lemma {:induction false} DeliveryStepWrite(s: State, a: Action, k: Token)
    requires a.WriteMessage?
    requires Enabled(s, a) && TokenAt(s, k) && HolderSeesStream(s) && ResetInv(s) && DeliveryInv(s, k)
    ensures DeliveryInv(Apply(s, a), TokenAfter(s, a, k))
  {
    hide Written;
    var m := OnceAt(s, a.t).value.msg;
    OnceHolder(s, a, k);
    assert s.active.Some?;
    hide TokenAt;
    WrittenSnoc(s.log, Posted(Write(s.active.value, m)));
  }

  lemma DeliveryStepPop(s: State, a: Action, k: Token)
    requires a.PopFront?
    requires Enabled(s, a) && TokenAt(s, k) && DeliveryInv(s, k)
    ensures DeliveryInv(Apply(s, a), TokenAfter(s, a, k))
  {
    hide Written;
    OnceHolder(s, a, k);
    hide TokenAt;
    assert s.buffer != [] ==> s.buffer == [s.buffer[0]] + s.buffer[1..];
  }

  lemma DeliveryStepFlag(s: State, a: Action, k: Token)
    requires a.CompareAndSwap? || a.StoreIdle?
    requires Enabled(s, a) && TokenAt(s, k) && DeliveryInv(s, k)
    ensures DeliveryInv(Apply(s, a), TokenAfter(s, a, k))
  {
    hide Written;
  }

  lemma DeliveryStepLog(s: State, a: Action, k: Token)
    requires a.Take? || a.CreateStream?
    requires Enabled(s, a) && TokenAt(s, k) && DeliveryInv(s, k)
    ensures DeliveryInv(Apply(s, a), TokenAfter(s, a, k))
  {
    hide Written;
    if a.Take? {
      WrittenSnoc(s.log, Returned(s.outstanding[a.k], a.ok));
    } else {
      WrittenSnoc(s.log, Posted(StartCall(s.created)));
    }
  }

  lemma {:induction false} DeliveryStepProducer(s: State, a: Action, k: Token)
    requires ProducerStep(a)
    requires Enabled(s, a) && TokenAt(s, k) && ResetInv(s) && DeliveryInv(s, k)
    ensures DeliveryInv(Apply(s, a), TokenAfter(s, a, k))
  {
    hide Written;
  }

  lemma {:induction false} DeliveryStepOther(s: State, a: Action, k: Token)
    requires !ProducerStep(a) && !OnceStep(a) && !a.Take? && !a.CreateStream?
    requires Enabled(s, a) && TokenAt(s, k) && ResetInv(s) && DeliveryInv(s, k)
    ensures DeliveryInv(Apply(s, a), TokenAfter(s, a, k))
  {
    hide Written;
  }

  lemma {:induction false} DeliveryStep(s: State, a: Action, k: Token)
    requires Enabled(s, a) && TokenAt(s, k) && ResetInv(s) && StreamInv(s, k) && DeliveryInv(s, k)
    ensures DeliveryInv(Apply(s, a), TokenAfter(s, a, k))
  {
    hide TokenAt, ResetInv, StreamInv, DeliveryInv, Apply, TokenAfter, Enabled;
    SeesStream(s, k);
    if ProducerStep(a) { DeliveryStepProducer(s, a, k); }
    else if a.WriteMessage? { DeliveryStepWrite(s, a, k); }
    else if a.PopFront? { DeliveryStepPop(s, a, k); }
    else if a.CompareAndSwap? || a.StoreIdle? { DeliveryStepFlag(s, a, k); }
    else if a.Take? || a.CreateStream? { DeliveryStepLog(s, a, k); }
    else { DeliveryStepOther(s, a, k); }
  }

  // What the steps of `sendMessageOnce`, and then all steps, do to the buffer and to the number of producers.
  lemma OnceStepFrame(s: State, a: Action)
    requires OnceStep(a) && Enabled(s, a)
    ensures |Apply(s, a).producers| == |s.producers|
    ensures Apply(s, a).buffer == if a.PopFront? && s.buffer != [] then s.buffer[1..] else s.buffer
  {
    hide MoveOnce;
  }

  lemma OtherStepFrame(s: State, a: Action)
    requires !OnceStep(a) && Enabled(s, a)
    ensures |Apply(s, a).producers| == |s.producers|
    ensures Apply(s, a).buffer == if a.Push? then s.buffer + [s.producers[a.i].msg]
                                  else if a.ClearBuffer? then []
                                  else s.buffer
  {
  }

  lemma {:induction false} BufferStep(s: State, a: Action)
    requires Enabled(s, a)
    ensures |Apply(s, a).producers| == |s.producers|
    ensures Apply(s, a).buffer ==
              if a.Push? then s.buffer + [s.producers[a.i].msg]
              else if a.PopFront? && s.buffer != [] then s.buffer[1..]
              else if a.ClearBuffer? then []
              else s.buffer
  {
    if OnceStep(a) {
      hide Enabled, Apply;
      OnceStepFrame(s, a);
    } else {
      OtherStepFrame(s, a);
    }
  }

  // ---------------------------------------------------------------- counting

  function Count(ps: seq<ProducerPc>, p: ProducerPc -> bool): (n: nat)
    ensures n <= |ps|
  {
    if |ps| == 0 then 0
    else Count(ps[..|ps| - 1], p) + (if p(ps[|ps| - 1]) then 1 else 0)
  }

  lemma {:induction false} CountUpdate(ps: seq<ProducerPc>, i: nat, pc: ProducerPc, p: ProducerPc -> bool)
    requires i < |ps|
    ensures Count(ps[i := pc], p) == Count(ps, p) - (if p(ps[i]) then 1 else 0) + (if p(pc) then 1 else 0)
  {
    var init := ps[..|ps| - 1];
    if i == |ps| - 1 {
      assert ps[i := pc][..|ps| - 1] == init;
    } else {
      CountUpdate(init, i, pc, p);
      assert ps[i := pc][..|ps| - 1] == init[i := pc];
    }
  }

  // Counted into the total, and neither pushed nor dropped.
  predicate IsPending(pc: ProducerPc) {
    pc.Counted? || pc.Overflow? || pc.Committed?
  }

  predicate IsCommitted(pc: ProducerPc) {
    pc.Committed?
  }

  function WritesIn(ops: seq<Op>): nat {
    if |ops| == 0 then 0
    else WritesIn(ops[..|ops| - 1]) + (if ops[|ops| - 1].Write? then 1 else 0)
  }

  lemma WritesOne(op: Op)
    ensures WritesIn([]) == 0 && WritesIn([op]) == if op.Write? then 1 else 0
  {
    assert [op][..0] == [];
  }

  // A Write that came back and is not yet in one of the counters.
  function Counting(pc: LoopPc): nat {
    if pc.CountSent? || pc.CountDropped? then 1 else 0
  }

  predicate CounterInv(s: State, k: Token) {
    s.total == s.dropped + s.sent + |s.buffer| + |InHand(s, k)| + WritesIn(s.outstanding) + Counting(s.loop)
             + Count(s.producers, IsPending) + |s.cleared|
  }

  // How a step changes the number of producers at a position.
  lemma CountStep(s: State, a: Action, p: ProducerPc -> bool)
    requires Enabled(s, a)
    ensures ProducerStep(a) ==>
              Count(Apply(s, a).producers, p) == Count(s.producers, p)
                - (if p(s.producers[a.i]) then 1 else 0) + (if p(Apply(s, a).producers[a.i]) then 1 else 0)
    ensures OnceStep(a) && !p(Outside) && (forall o :: !p(Sending(o))) ==>
              Count(Apply(s, a).producers, p) == Count(s.producers, p)
    ensures !ProducerStep(a) && !OnceStep(a) ==> Apply(s, a).producers == s.producers
  {
    hide Count;
    var ps := Apply(s, a).producers;
    if ProducerStep(a) {
      CountUpdate(s.producers, a.i, ps[a.i], p);
    } else if OnceStep(a) && a.t.Producer? {
      CountUpdate(s.producers, a.t.i, ps[a.t.i], p);
    }
  }

  lemma CounterStepProducer(s: State, a: Action, k: Token)
    requires ProducerStep(a)
    requires Enabled(s, a) && TokenAt(s, k) && CounterInv(s, k)
    ensures CounterInv(Apply(s, a), TokenAfter(s, a, k))
  {
    hide Count, WritesIn;
    CountStep(s, a, IsPending);
  }

  lemma CounterStepWrite(s: State, a: Action, k: Token)
    requires a.WriteMessage?
    requires Enabled(s, a) && TokenAt(s, k) && HolderSeesStream(s) && ResetInv(s) && CounterInv(s, k)
    ensures CounterInv(Apply(s, a), TokenAfter(s, a, k))
  {
    hide Count, WritesIn;
    CountStep(s, a, IsPending);
    OnceHolder(s, a, k);
    assert s.active.Some?;
    var op := Write(s.active.value, OnceAt(s, a.t).value.msg);
    hide TokenAt, ResetInv;
    WritesOne(op);
    assert Apply(s, a).outstanding == [op];
  }

  lemma CounterStepPop(s: State, a: Action, k: Token)
    requires a.PopFront?
    requires Enabled(s, a) && TokenAt(s, k) && CounterInv(s, k)
    ensures CounterInv(Apply(s, a), TokenAfter(s, a, k))
  {
    hide Count, WritesIn;
    CountStep(s, a, IsPending);
    OnceHolder(s, a, k);
    hide TokenAt;
  }

  lemma CounterStepFlag(s: State, a: Action, k: Token)
    requires a.CompareAndSwap? || a.StoreIdle?
    requires Enabled(s, a) && TokenAt(s, k) && CounterInv(s, k)
    ensures CounterInv(Apply(s, a), TokenAfter(s, a, k))
  {
    hide Count, WritesIn;
    CountStep(s, a, IsPending);
    assert |InHand(s, k)| == |InHand(Apply(s, a), TokenAfter(s, a, k))|;
    hide TokenAt, InHand;
  }

  lemma CounterStepQueue(s: State, a: Action, k: Token)
    requires a.Take? || a.CreateStream?
    requires Enabled(s, a) && TokenAt(s, k) && CounterInv(s, k)
    ensures CounterInv(Apply(s, a), TokenAfter(s, a, k))
  {
    hide Count, WritesIn;
    var r := Apply(s, a);
    if a.Take? {
      WritesOne(s.outstanding[0]);
      assert s.outstanding == [s.outstanding[0]] && r.outstanding == [];
    } else {
      WritesOne(StartCall(s.created));
      assert s.outstanding == [] && r.outstanding == [StartCall(s.created)];
    }
  }

  lemma CounterStepOther(s: State, a: Action, k: Token)
    requires !ProducerStep(a) && !OnceStep(a) && !a.Take? && !a.CreateStream?
    requires Enabled(s, a) && TokenAt(s, k) && ResetInv(s) && CounterInv(s, k)
    ensures CounterInv(Apply(s, a), TokenAfter(s, a, k))
  {
    hide Count, WritesIn;
    CountStep(s, a, IsPending);
  }

  lemma {:induction false} CounterStep(s: State, a: Action, k: Token)
    requires Enabled(s, a) && TokenAt(s, k) && ResetInv(s) && StreamInv(s, k) && CounterInv(s, k)
    ensures CounterInv(Apply(s, a), TokenAfter(s, a, k))
  {
    hide TokenAt, ResetInv, StreamInv, CounterInv, Apply, TokenAfter, Enabled;
    if ProducerStep(a) { CounterStepProducer(s, a, k); }
    else if a.WriteMessage? { SeesStream(s, k); CounterStepWrite(s, a, k); }
    else if a.PopFront? { CounterStepPop(s, a, k); }
    else if a.CompareAndSwap? || a.StoreIdle? { CounterStepFlag(s, a, k); }
    else if a.Take? || a.CreateStream? { CounterStepQueue(s, a, k); }
    else { CounterStepOther(s, a, k); }
  }

  // The size is read before the push, so every producer may add one message to a full buffer.
  predicate SizeInv(s: State) {
    |s.buffer| + Count(s.producers, IsCommitted) <= MAX_PENDING_MESSAGES + |s.producers|
  }

  lemma SizeStepProducer(s: State, a: Action)
    requires ProducerStep(a) && Enabled(s, a) && SizeInv(s)
    ensures SizeInv(Apply(s, a))
  {
    hide Count;
    CountUpdate(s.producers, a.i, Apply(s, a).producers[a.i], IsCommitted);
  }

  lemma SizeStepOther(s: State, a: Action)
    requires !ProducerStep(a) && Enabled(s, a) && SizeInv(s)
    ensures SizeInv(Apply(s, a))
  {
    hide Count, Apply, Enabled;
    CountStep(s, a, IsCommitted);
    BufferStep(s, a);
  }

  lemma {:induction false} SizeStep(s: State, a: Action)
    requires Enabled(s, a) && SizeInv(s)
    ensures SizeInv(Apply(s, a))
  {
    hide Apply, Enabled, SizeInv;
    if ProducerStep(a) { SizeStepProducer(s, a); } else { SizeStepOther(s, a); }
  }

  // ---------------------------------------------------------------- every run

  predicate Inv(s: State, k: Token) {
    TokenAt(s, k) && ResetInv(s) && StreamInv(s, k) && DeliveryInv(s, k) && CounterInv(s, k) && SizeInv(s)
  }

  lemma InvInit(n: nat)
    ensures Inv(Init(n), InFlight)
  {
    NoneIn(n, IsPending);
    NoneIn(n, IsCommitted);
    var s := Init(n);
    assert s.log[..0] == [] && s.outstanding[..0] == [];
  }

  lemma {:induction false} NoneIn(n: nat, p: ProducerPc -> bool)
    requires !p(Outside)
    ensures Count(seq(n, _ => Outside), p) == 0
  {
    if n > 0 {
      NoneIn(n - 1, p);
      assert seq(n, _ => Outside)[..n - 1] == seq(n - 1, _ => Outside);
    }
  }

  lemma {:induction false} TokenStep(s: State, a: Action, k: Token)
    requires Enabled(s, a) && TokenAt(s, k) && ResetInv(s) && HolderSeesStream(s)
    ensures TokenAt(Apply(s, a), TokenAfter(s, a, k))
  {
    if ProducerStep(a) { TokenStepProducer(s, a, k); }
    else if OnceStep(a) && a.t.Producer? { TokenStepOnceProducer(s, a, k); }
    else if OnceStep(a) { TokenStepOnceLoop(s, a, k); }
    else if ResetterStep(a) { TokenStepResetter(s, a, k); }
    else if a.Take? { TokenStepTake(s, a, k); }
    else { TokenStepLoop(s, a, k); }
  }

  lemma {:induction false} InvStep(s: State, a: Action, k: Token)
    requires Enabled(s, a) && Inv(s, k)
    ensures Inv(Apply(s, a), TokenAfter(s, a, k))
  {
    hide Apply, TokenAt, ResetInv, DeliveryInv, CounterInv, SizeInv, Disciplined;
    TokenStep(s, a, k);
    ResetStep(s, a);
    StreamStep(s, a, k);
    DeliveryStep(s, a, k);
    CounterStep(s, a, k);
    SizeStep(s, a);
  }

  lemma {:induction false} InvRun(n: nat, acts: seq<Action>) returns (k: Token)
    requires Run(Init(n), acts).Some?
    ensures Inv(Run(Init(n), acts).value, k)
  {
    hide Inv, Apply, Enabled;
    if |acts| == 0 {
      InvInit(n);
      return InFlight;
    }
    var init := acts[..|acts| - 1];
    k := InvRun(n, init);
    InvStep(Run(Init(n), init).value, acts[|acts| - 1], k);
    k := TokenAfter(Run(Init(n), init).value, acts[|acts| - 1], k);
  }

  lemma {:induction false} ReachableInv(n: nat, s: State) returns (k: Token)
    requires Reachable(n, s)
    ensures Inv(s, k)
  {
    var acts :| Run(Init(n), acts) == Some(s);
    k := InvRun(n, acts);
  }
}
