/** The asynchronous reporter as a transition system: any number of producer threads in `sendMessage`, the
    completion-queue thread in its callbacks, and the thread that calls `resetClient`, interleaved at every
    access to a shared variable. */
module ReporterProtocol {
  import opened Wrappers
  import opened Segment

  type Message = SegmentObject

  const MAX_PENDING_MESSAGES: nat := 1024

  // ---------------------------------------------------------------- state

  // An operation posted on a stream, and its two events: posted, and returned by the completion queue.
  datatype Op = StartCall(stream: nat) | Write(stream: nat, msg: Message)

  datatype Event = Posted(op: Op) | Returned(op: Op, ok: bool)

  // Inside `sendMessageOnce`: before the compare-and-swap, before the pop, before the write of a popped
  // message, and before the flag is stored back after an empty pop.
  datatype Once = AtCas | AtPop | AtWrite(msg: Message) | AtRelease

  // Inside `sendMessage`: after the total is counted, after the size check either way, and after the push.
  datatype ProducerPc = Outside | Counted(msg: Message) | Overflow | Committed(msg: Message) | Sending(once: Once)

  // Inside a callback.  `Restart`, `Create` and `Publish` are the three steps of `startStream`.
  datatype LoopPc =
    | Waiting
    | CountSent
    | CountDropped
    | CheckReset(ok: bool)
    | MarkIdle
    | LoopSending(once: Once)
    | Restart
    | Create
    | Publish(stream: nat)

  // Inside `resetClient`.
  datatype ResetPc = Running | FlagSet | Cleared | Joined | Finished

  datatype Thread = Producer(i: nat) | EventLoop | Resetter

  datatype State = State(
    total: nat,
    dropped: nat,
    sent: nat,
    idle: bool,
    active: Option<nat>,
    clientReset: bool,
    buffer: seq<Message>,
    outstanding: seq<Op>,
    producers: seq<ProducerPc>,
    loop: LoopPc,
    resetter: ResetPc,
    // What happened so far: an assertion failed or a null stream was used; the streams created; the events
    // on all streams; the messages pushed; the messages cleared by `resetClient`.
    faulted: bool,
    created: nat,
    log: seq<Event>,
    pushed: seq<Message>,
    cleared: seq<Message>)

  // The constructor has run `startStream`: the first StartCall is outstanding and the flag is false.
  function Init(n: nat): State {
    State(0, 0, 0, false, Some(0), false, [], [StartCall(0)], seq(n, _ => Outside), Waiting, Running,
          false, 1, [Posted(StartCall(0))], [], [])
  }

  // ---------------------------------------------------------------- steps

  datatype Action =
    // sendMessage, by producer i
    | Enter(i: nat, msg: Message)
    | ReadSize(i: nat)
    | Drop(i: nat)
    | Push(i: nat)
    // sendMessageOnce, by producer or event loop
    | CompareAndSwap(t: Thread)
    | PopFront(t: Thread)
    | WriteMessage(t: Thread)
    | StoreIdle(t: Thread)
    // the event loop
    | Take(k: nat, ok: bool)
    | CountResult
    | LoadReset
    | StoreIdleAfterOk
    | ResetStream
    | CreateStream
    | PublishStream
    // resetClient
    | SetReset
    | ClearBuffer
    | JoinLoop
    | DeleteStream

  // The thread that takes a step.
  function Actor(a: Action): Thread {
    match a
    case Enter(i, _) => Producer(i)
    case ReadSize(i) => Producer(i)
    case Drop(i) => Producer(i)
    case Push(i) => Producer(i)
    case CompareAndSwap(t) => t
    case PopFront(t) => t
    case WriteMessage(t) => t
    case StoreIdle(t) => t
    case SetReset => Resetter
    case ClearBuffer => Resetter
    case JoinLoop => Resetter
    case DeleteStream => Resetter
    case _ => EventLoop
  }

  function OnceAt(s: State, t: Thread): Option<Once> {
    match t
    case Producer(i) => if i < |s.producers| && s.producers[i].Sending? then Some(s.producers[i].once) else None
    case EventLoop => if s.loop.LoopSending? then Some(s.loop.once) else None
    case Resetter => None
  }

  // t moves on inside `sendMessageOnce`, or returns from it.
  function MoveOnce(s: State, t: Thread, next: Option<Once>): (r: State)
    requires OnceAt(s, t).Some?
    ensures r == s.(producers := r.producers, loop := r.loop) && |r.producers| == |s.producers|
  {
    match t
    case Producer(i) =>
      s.(producers := s.producers[i := if next.None? then Outside else Sending(next.value)])
    case EventLoop =>
      s.(loop := if next.None? then Waiting else LoopSending(next.value))
  }

  function Post(s: State, op: Op): State {
    s.(outstanding := s.outstanding + [op], log := s.log + [Posted(op)])
  }

  predicate AllOutside(s: State) {
    forall i :: 0 <= i < |s.producers| ==> s.producers[i] == Outside
  }

  predicate Enabled(s: State, a: Action) {
    match a
    case Enter(i, m) => i < |s.producers| && s.producers[i].Outside? && s.resetter.Running?
    case ReadSize(i) => i < |s.producers| && s.producers[i].Counted?
    case Drop(i) => i < |s.producers| && s.producers[i].Overflow?
    case Push(i) => i < |s.producers| && s.producers[i].Committed?
    case CompareAndSwap(t) => OnceAt(s, t) == Some(AtCas)
    case PopFront(t) => OnceAt(s, t) == Some(AtPop)
    case WriteMessage(t) => OnceAt(s, t).Some? && OnceAt(s, t).value.AtWrite?
    case StoreIdle(t) => OnceAt(s, t) == Some(AtRelease)
    case Take(k, ok) => s.loop.Waiting? && k < |s.outstanding| && !s.resetter.Joined? && !s.resetter.Finished?
    case CountResult => s.loop.CountSent? || s.loop.CountDropped?
    case LoadReset => s.loop.CheckReset?
    case StoreIdleAfterOk => s.loop.MarkIdle?
    case ResetStream => s.loop.Restart?
    case CreateStream => s.loop.Create?
    case PublishStream => s.loop.Publish?
    case SetReset => s.resetter.Running? && AllOutside(s)
    case ClearBuffer => s.resetter.FlagSet?
    case JoinLoop => s.resetter.Cleared? && s.loop.Waiting? && s.outstanding == []
    case DeleteStream => s.resetter.Joined?
  }

  function Apply(s: State, a: Action): State
    requires Enabled(s, a)
  {
    match a
    case Enter(i, m) => s.(total := s.total + 1, producers := s.producers[i := Counted(m)])
    case ReadSize(i) =>
      s.(producers := s.producers[i :=
        if |s.buffer| > MAX_PENDING_MESSAGES then Overflow else Committed(s.producers[i].msg)])
    case Drop(i) => s.(dropped := s.dropped + 1, producers := s.producers[i := Outside])
    case Push(i) =>
      var m := s.producers[i].msg;
      s.(buffer := s.buffer + [m], pushed := s.pushed + [m], producers := s.producers[i := Sending(AtCas)])
    case CompareAndSwap(t) =>
      if s.idle then MoveOnce(s.(idle := false), t, Some(AtPop)) else MoveOnce(s, t, None)
    case PopFront(t) =>
      var s := s.(faulted := s.faulted || s.active.None?);
      if s.buffer == [] then MoveOnce(s, t, Some(AtRelease))
      else MoveOnce(s.(buffer := s.buffer[1..]), t, Some(AtWrite(s.buffer[0])))
    case WriteMessage(t) =>
      if s.active.None? then MoveOnce(s.(faulted := true), t, None)
      else Post(MoveOnce(s, t, None), Write(s.active.value, OnceAt(s, t).value.msg))
    case StoreIdle(t) => MoveOnce(s.(idle := true), t, None)
    case Take(k, ok) =>
      var op := s.outstanding[k];
      s.(outstanding := s.outstanding[..k] + s.outstanding[k + 1..],
         log := s.log + [Returned(op, ok)],
         loop := if op.StartCall? then CheckReset(ok) else if ok then CountSent else CountDropped)
    case CountResult =>
      if s.loop.CountSent? then s.(sent := s.sent + 1, loop := CheckReset(true))
      else s.(dropped := s.dropped + 1, loop := CheckReset(false))
    case LoadReset =>
      s.(loop := if s.clientReset then Waiting else if s.loop.ok then MarkIdle else Restart)
    case StoreIdleAfterOk => s.(idle := true, loop := LoopSending(AtCas))
    case ResetStream => s.(faulted := s.faulted || s.idle, active := None, loop := Create)
    case CreateStream =>
      Post(s, StartCall(s.created)).(created := s.created + 1, loop := Publish(s.created))
    case PublishStream => s.(active := Some(s.loop.stream), loop := Waiting)
    case SetReset => s.(clientReset := true, resetter := FlagSet)
    case ClearBuffer => s.(buffer := [], cleared := s.cleared + s.buffer, resetter := Cleared)
    case JoinLoop => s.(resetter := Joined)
    case DeleteStream => s.(active := None, resetter := Finished)
  }

  // The state after a sequence of steps, None if one of them is not enabled.
  function Run(s: State, acts: seq<Action>): Option<State> {
    if |acts| == 0 then Some(s)
    else
      match Run(s, acts[..|acts| - 1])
      case None => None
      case Some(r) => if Enabled(r, acts[|acts| - 1]) then Some(Apply(r, acts[|acts| - 1])) else None
  }

  ghost predicate Reachable(n: nat, s: State) {
    exists acts :: Run(Init(n), acts) == Some(s)
  }

  lemma ReachableStep(n: nat, s: State, a: Action)
    requires Reachable(n, s) && Enabled(s, a)
    ensures Reachable(n, Apply(s, a))
  {
    var acts :| Run(Init(n), acts) == Some(s);
    assert (acts + [a])[..|acts|] == acts;
    assert Run(Init(n), acts + [a]) == Some(Apply(s, a));
  }

  lemma ReachableInit(n: nat)
    ensures Reachable(n, Init(n))
  {
    assert Run(Init(n), []) == Some(Init(n));
  }
}
