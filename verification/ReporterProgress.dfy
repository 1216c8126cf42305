/** What undisturbed calls and callbacks do as a whole, and what the event loop makes of a script of outcomes. */
module ReporterProgress {
  import opened Wrappers
  import opened ReporterProtocol
  import opened ReporterInvariant

  // ---------------------------------------------------------------- composing runs

  lemma RunSnoc(s: State, acts: seq<Action>, r: State, a: Action)
    requires Run(s, acts) == Some(r) && Enabled(r, a)
    ensures Run(s, acts + [a]) == Some(Apply(r, a))
  {
    assert (acts + [a])[..|acts|] == acts;
  }

  lemma {:induction false} ReachableRun(n: nat, s: State, acts: seq<Action>)
    requires Reachable(n, s) && Run(s, acts).Some?
    ensures Reachable(n, Run(s, acts).value)
  {
    hide Apply, Enabled, Reachable;
    if |acts| > 0 {
      var init := acts[..|acts| - 1];
      ReachableRun(n, s, init);
      ReachableStep(n, Run(s, init).value, acts[|acts| - 1]);
    }
  }

  // ---------------------------------------------------------------- whole calls

  // `sendMessageOnce` from compare-and-swap to return, with nobody in between.
  function AfterOnce(s: State): State
    requires s.idle ==> s.active.Some?
  {
    if !s.idle || s.buffer == [] then s
    else Post(s.(idle := false, buffer := s.buffer[1..]), Write(s.active.value, s.buffer[0]))
  }

  // `sendMessage` from call to return.
  function AfterSend(s: State, m: Message): State
    requires s.idle ==> s.active.Some?
  {
    if |s.buffer| > MAX_PENDING_MESSAGES then s.(total := s.total + 1, dropped := s.dropped + 1)
    else AfterOnce(s.(total := s.total + 1, buffer := s.buffer + [m], pushed := s.pushed + [m]))
  }

  // The callback of the one outstanding operation, from `Next` to `Next`.
  function AfterEvent(s: State, ok: bool): State
    requires |s.outstanding| == 1 && s.active.Some?
  {
    var op := s.outstanding[0];
    var r := s.(outstanding := [], log := s.log + [Returned(op, ok)],
                sent := s.sent + (if op.Write? && ok then 1 else 0),
                dropped := s.dropped + (if op.Write? && !ok then 1 else 0));
    AfterBasicEvent(r, ok)
  }

  // `startStream`: the next stream replaces the active one, and its StartCall is outstanding.
  function AfterStart(s: State): State {
    Post(s, StartCall(s.created)).(created := s.created + 1, active := Some(s.created))
  }

  // What both callbacks come down to once the operation has been counted.
  function AfterBasicEvent(s: State, ok: bool): State
    requires s.active.Some?
  {
    if s.clientReset then s
    else if ok then AfterOnce(s.(idle := true))
    else AfterStart(s)
  }

  function SendSteps(s: State, i: nat, m: Message): seq<Action> {
    [Enter(i, m), ReadSize(i)] +
    if |s.buffer| > MAX_PENDING_MESSAGES then [Drop(i)]
    else [Push(i), CompareAndSwap(Producer(i))] +
         if s.idle then [PopFront(Producer(i)), WriteMessage(Producer(i))] else []
  }

  // An undisturbed `sendMessage` is a run of the protocol, whatever the other threads are in the middle of.
  lemma {:induction false} SendIsRun(s: State, i: nat, m: Message)
    requires i < |s.producers| && s.producers[i].Outside? && s.resetter.Running? && (s.idle ==> s.active.Some?)
    ensures Run(s, SendSteps(s, i, m)) == Some(AfterSend(s, m))
  {
    hide Run, Apply, Enabled;
    var r := EnterIsRun(s, i, m);
    var two := [] + [Enter(i, m)] + [ReadSize(i)];
    SendStepsListed(s, i, m);
    if |s.buffer| <= MAX_PENDING_MESSAGES {
      hide SendSteps;
      PushIsRun(s, two, r, i, m);
      Overwrite(s.producers, i, Committed(m), Outside);
    }
  }

  lemma SendStepsListed(s: State, i: nat, m: Message)
    ensures SendSteps(s, i, m) ==
              if |s.buffer| > MAX_PENDING_MESSAGES then [] + [Enter(i, m)] + [ReadSize(i)] + [Drop(i)]
              else
                var more := [] + [Enter(i, m)] + [ReadSize(i)] + [Push(i)] + [CompareAndSwap(Producer(i))];
                if s.idle then more + [PopFront(Producer(i))] + [WriteMessage(Producer(i))] else more
  {
  }

  lemma EnterIsRun(s: State, i: nat, m: Message) returns (r: State)
    requires i < |s.producers| && s.producers[i].Outside? && s.resetter.Running?
    ensures r == s.(total := s.total + 1, producers := r.producers)
    ensures |s.buffer| > MAX_PENDING_MESSAGES ==>
              Run(s, [] + [Enter(i, m)] + [ReadSize(i)] + [Drop(i)])
              == Some(s.(total := s.total + 1, dropped := s.dropped + 1))
    ensures |s.buffer| <= MAX_PENDING_MESSAGES ==>
              Run(s, [] + [Enter(i, m)] + [ReadSize(i)]) == Some(r) && r.producers == s.producers[i := Committed(m)]
  {
    hide Run;
    var ps := s.producers;
    RunNothing(s);
    RunSnoc(s, [], s, Enter(i, m));
    var s1 := s.(total := s.total + 1, producers := ps[i := Counted(m)]);
    RunSnoc(s, [] + [Enter(i, m)], s1, ReadSize(i));
    var pc := if |s.buffer| > MAX_PENDING_MESSAGES then Overflow else Committed(m);
    r := s1.(producers := ps[i := pc]);
    Overwrite(ps, i, Counted(m), pc);
    Overwrite(ps, i, pc, Outside);
    if |s.buffer| > MAX_PENDING_MESSAGES {
      RunSnoc(s, [] + [Enter(i, m)] + [ReadSize(i)], r, Drop(i));
    }
  }

  lemma Overwrite(ps: seq<ProducerPc>, i: nat, x: ProducerPc, y: ProducerPc)
    requires i < |ps|
    ensures ps[i := x][i := y] == ps[i := y]
    ensures y == ps[i] ==> ps[i := y] == ps
  {
  }

  lemma RunNothing(s: State)
    ensures Run(s, []) == Some(s)
  {
  }

  lemma PushIsRun(s: State, acts: seq<Action>, r: State, i: nat, m: Message)
    requires Run(s, acts) == Some(r)
    requires i < |r.producers| && r.producers[i] == Committed(m) && (r.idle ==> r.active.Some?)
    ensures var more := acts + [Push(i)] + [CompareAndSwap(Producer(i))];
            Run(s, if r.idle then more + [PopFront(Producer(i))] + [WriteMessage(Producer(i))] else more)
            == Some(AfterOnce(r.(buffer := r.buffer + [m], pushed := r.pushed + [m],
                                 producers := r.producers[i := Outside])))
  {
    hide Run;
    var ps := r.producers;
    var t := Producer(i);
    RunSnoc(s, acts, r, Push(i));
    var r1 := r.(buffer := r.buffer + [m], pushed := r.pushed + [m], producers := ps[i := Sending(AtCas)]);
    RunSnoc(s, acts + [Push(i)], r1, CompareAndSwap(t));
    Overwrite(ps, i, Sending(AtCas), Outside);
    if r.idle {
      Overwrite(ps, i, Sending(AtCas), Sending(AtPop));
      Overwrite(ps, i, Sending(AtPop), Sending(AtWrite(r1.buffer[0])));
      Overwrite(ps, i, Sending(AtWrite(r1.buffer[0])), Outside);
      var r2 := r1.(idle := false, producers := ps[i := Sending(AtPop)]);
      var acts2 := acts + [Push(i)] + [CompareAndSwap(t)];
      assert Run(s, acts2) == Some(r2);
      RunSnoc(s, acts2, r2, PopFront(t));
      var r3 := r2.(buffer := r1.buffer[1..], producers := ps[i := Sending(AtWrite(r1.buffer[0]))]);
      assert Run(s, acts2 + [PopFront(t)]) == Some(r3);
      RunSnoc(s, acts2 + [PopFront(t)], r3, WriteMessage(t));
    }
  }

  // ---------------------------------------------------------------- calls in a row

  function Min(a: nat, b: nat): nat {
    if a < b then a else b
  }

  // Undisturbed calls of `sendMessage`, one after the other.
  function AfterSends(s: State, ms: seq<Message>): (r: State)
    requires s.idle ==> s.active.Some?
    ensures r.idle ==> r.active.Some?
  {
    if |ms| == 0 then s else AfterSend(AfterSends(s, ms[..|ms| - 1]), ms[|ms| - 1])
  }

  // How many of them find room: up to one more than the limit, and one for the message that the first writes.
  function Room(s: State): nat {
    if |s.buffer| > MAX_PENDING_MESSAGES then 0
    else MAX_PENDING_MESSAGES + 1 - |s.buffer| + (if s.idle then 1 else 0)
  }

  lemma SendUsesRoom(s: State, m: Message)
    requires s.idle ==> s.active.Some?
    ensures var r := AfterSend(s, m);
            && Room(r) == (if Room(s) == 0 then 0 else Room(s) - 1)
            && r.pushed == (if Room(s) == 0 then s.pushed else s.pushed + [m])
            && r.total == s.total + 1
            && r.dropped == (if Room(s) == 0 then s.dropped + 1 else s.dropped)
            && r.sent == s.sent
  {
  }

  lemma RoomInNumbers(s: State)
    ensures Room(s) == if |s.buffer| > 1024 then 0 else 1025 - |s.buffer| + (if s.idle then 1 else 0)
  {
  }

  // The first of them are pushed, in order, as many as there is room for; the others are dropped.
  lemma {:induction false} SendsClosedForm(s: State, ms: seq<Message>)
    requires s.idle ==> s.active.Some?
    ensures Room(s) == if |s.buffer| > 1024 then 0 else 1025 - |s.buffer| + (if s.idle then 1 else 0)
    ensures var r, k := AfterSends(s, ms), Min(|ms|, Room(s));
            && Room(r) == Room(s) - k
            && r.pushed == s.pushed + ms[..k]
            && r.total == s.total + |ms|
            && r.dropped == s.dropped + |ms| - k
            && r.sent == s.sent
  {
    RoomInNumbers(s);
    hide AfterSend, Room;
    if |ms| > 0 {
      var init, m := ms[..|ms| - 1], ms[|ms| - 1];
      SendsClosedForm(s, init);
      SendUsesRoom(AfterSends(s, init), m);
      FirstOfOneMore(s.pushed, ms, Room(s));
    }
  }

  lemma FirstOfOneMore(before: seq<Message>, ms: seq<Message>, room: nat)
    requires |ms| > 0
    ensures var init, m := ms[..|ms| - 1], ms[|ms| - 1];
            before + ms[..Min(|ms|, room)] ==
              if |init| < room then before + init[..Min(|init|, room)] + [m] else before + init[..Min(|init|, room)]
  {
    var init := ms[..|ms| - 1];
    if |init| < room {
      assert ms[..Min(|ms|, room)] == init[..Min(|init|, room)] + [ms[|ms| - 1]];
    } else {
      assert ms[..Min(|ms|, room)] == init[..Min(|init|, room)];
    }
  }

  // ---------------------------------------------------------------- whole callbacks

  // Nobody is in the middle of anything: one operation is outstanding, or the flag is true.
  predicate Quiet(s: State) {
    && AllOutside(s)
    && s.loop.Waiting?
    && s.resetter.Running?
    && !s.clientReset
    && !s.faulted
    && s.active.Some?
    && |s.outstanding| == (if s.idle then 0 else 1)
  }

  function EventSteps(s: State, ok: bool): seq<Action>
    requires |s.outstanding| == 1
  {
    [Take(0, ok)] + (if s.outstanding[0].Write? then [CountResult] else []) + [LoadReset] +
    if !ok then [ResetStream, CreateStream, PublishStream]
    else [StoreIdleAfterOk, CompareAndSwap(EventLoop), PopFront(EventLoop)] +
         [if s.buffer == [] then StoreIdle(EventLoop) else WriteMessage(EventLoop)]
  }

  // An undisturbed callback is a run of the protocol.
  lemma {:induction false} EventIsRun(s: State, ok: bool)
    requires Quiet(s) && !s.idle
    ensures Run(s, EventSteps(s, ok)) == Some(AfterEvent(s, ok))
  {
    hide Run, Apply, Enabled, AllOutside;
    var acts := [Take(0, ok)] + (if s.outstanding[0].Write? then [CountResult] else []) + [LoadReset];
    if ok {
      OkEventIsRun(s, acts);
      assert acts + [StoreIdleAfterOk] + [CompareAndSwap(EventLoop)] + [PopFront(EventLoop)]
           + [if s.buffer == [] then StoreIdle(EventLoop) else WriteMessage(EventLoop)] == EventSteps(s, ok);
    } else {
      FailedEventIsRun(s, acts);
      assert acts + [ResetStream] + [CreateStream] + [PublishStream] == EventSteps(s, ok);
    }
  }

  lemma {:induction false} OkEventIsRun(s: State, acts: seq<Action>)
    requires Quiet(s) && !s.idle && !s.faulted
    requires acts == [Take(0, true)] + (if s.outstanding[0].Write? then [CountResult] else []) + [LoadReset]
    ensures Run(s, acts + [StoreIdleAfterOk] + [CompareAndSwap(EventLoop)] + [PopFront(EventLoop)]
                 + [if s.buffer == [] then StoreIdle(EventLoop) else WriteMessage(EventLoop)])
         == Some(AfterEvent(s, true))
  {
    hide Run, Apply, Enabled, AllOutside;
    var r := ReturnIsRun(s, true);
    IdleIsRun(s, acts, r);
  }

  lemma {:induction false} FailedEventIsRun(s: State, acts: seq<Action>)
    requires Quiet(s) && !s.idle && !s.faulted
    requires acts == [Take(0, false)] + (if s.outstanding[0].Write? then [CountResult] else []) + [LoadReset]
    ensures Run(s, acts + [ResetStream] + [CreateStream] + [PublishStream]) == Some(AfterEvent(s, false))
  {
    hide Run, Apply, Enabled, AllOutside;
    var r := ReturnIsRun(s, false);
    RestartIsRun(s, acts, r);
  }

  lemma QuietAfterEvent(s: State, ok: bool)
    requires Quiet(s) && !s.idle
    ensures Quiet(AfterEvent(s, ok))
  {
  }

  lemma ReturnIsRun(s: State, ok: bool) returns (r: State)
    requires Quiet(s) && !s.idle
    ensures Run(s, [Take(0, ok)] + (if s.outstanding[0].Write? then [CountResult] else []) + [LoadReset]) == Some(r)
    ensures var op := s.outstanding[0];
            r == s.(outstanding := [], log := s.log + [Returned(op, ok)], loop := if ok then MarkIdle else Restart,
                    sent := s.sent + (if op.Write? && ok then 1 else 0),
                    dropped := s.dropped + (if op.Write? && !ok then 1 else 0))
  {
    hide Run;
    var op := s.outstanding[0];
    RunNothing(s);
    RunSnoc(s, [], s, Take(0, ok));
    var r1 := Apply(s, Take(0, ok));
    assert [] + [Take(0, ok)] == [Take(0, ok)];
    if op.Write? {
      RunSnoc(s, [Take(0, ok)], r1, CountResult);
      r := Apply(r1, CountResult);
      RunSnoc(s, [Take(0, ok)] + [CountResult], r, LoadReset);
    } else {
      r := r1;
      assert [Take(0, ok)] + [] == [Take(0, ok)];
      RunSnoc(s, [Take(0, ok)] + [], r, LoadReset);
    }
    r := Apply(r, LoadReset);
  }

  lemma RestartIsRun(s: State, acts: seq<Action>, r: State)
    requires Run(s, acts) == Some(r) && r.loop.Restart? && !r.idle && !r.faulted
    ensures Run(s, acts + [ResetStream] + [CreateStream] + [PublishStream])
         == Some(Post(r, StartCall(r.created)).(created := r.created + 1, active := Some(r.created), loop := Waiting))
  {
    hide Run;
    RunSnoc(s, acts, r, ResetStream);
    var r1 := Apply(r, ResetStream);
    RunSnoc(s, acts + [ResetStream], r1, CreateStream);
    var r2 := Apply(r1, CreateStream);
    RunSnoc(s, acts + [ResetStream] + [CreateStream], r2, PublishStream);
  }

  lemma IdleIsRun(s: State, acts: seq<Action>, r: State)
    requires Run(s, acts) == Some(r) && r.loop.MarkIdle? && !r.idle && !r.faulted && r.active.Some?
    ensures Run(s, acts + [StoreIdleAfterOk] + [CompareAndSwap(EventLoop)] + [PopFront(EventLoop)]
                 + [if r.buffer == [] then StoreIdle(EventLoop) else WriteMessage(EventLoop)])
         == Some(AfterOnce(r.(idle := true, loop := Waiting)))
  {
    hide Run;
    RunSnoc(s, acts, r, StoreIdleAfterOk);
    var r1 := Apply(r, StoreIdleAfterOk);
    var acts1 := acts + [StoreIdleAfterOk];
    RunSnoc(s, acts1, r1, CompareAndSwap(EventLoop));
    var r2 := Apply(r1, CompareAndSwap(EventLoop));
    var acts2 := acts1 + [CompareAndSwap(EventLoop)];
    RunSnoc(s, acts2, r2, PopFront(EventLoop));
    var r3 := Apply(r2, PopFront(EventLoop));
    RunSnoc(s, acts2 + [PopFront(EventLoop)], r3,
            if r.buffer == [] then StoreIdle(EventLoop) else WriteMessage(EventLoop));
  }

  // ---------------------------------------------------------------- scripts of outcomes

  function Oks(script: seq<bool>): nat {
    if |script| == 0 then 0 else (if script[0] then 1 else 0) + Oks(script[1..])
  }

  // Of the operations a script answers, the Writes: the first one if `isWrite`, then each that follows an ok.
  function WritesAnswered(script: seq<bool>, isWrite: bool, ok: bool): nat {
    if |script| == 0 then 0
    else (if isWrite && script[0] == ok then 1 else 0) + WritesAnswered(script[1..], script[0], ok)
  }

  // The event loop handles the outcomes of the script in turn, while an operation is outstanding.
  function Play(s: State, script: seq<bool>): State
    requires Quiet(s)
    decreases |script|
  {
    if |script| == 0 || s.idle then s
    else
      QuietAfterEvent(s, script[0]);
      Play(AfterEvent(s, script[0]), script[1..])
  }

  // The script does not go on after the event loop has become idle.
  predicate Fits(waiting: nat, script: seq<bool>) {
    |script| > 0 ==> Oks(script[..|script| - 1]) <= waiting
  }

  lemma {:induction false} OksOfFront(script: seq<bool>)
    requires |script| > 1
    ensures Oks(script[..|script| - 1]) == (if script[0] then 1 else 0) + Oks(script[1..][..|script| - 2])
  {
    assert script[..|script| - 1][1..] == script[1..][..|script| - 2];
  }

  // With n messages waiting, k successes and no producer: k messages leave the buffer from the front, n at
  // most, and the event loop ends idle exactly at the (n+1)th success.
  lemma {:induction false} ScriptClosedForm(s: State, script: seq<bool>)
    requires Quiet(s) && !s.idle && Fits(|s.buffer|, script)
    ensures Play(s, script).buffer == s.buffer[Min(|s.buffer|, Oks(script))..]
    ensures Play(s, script).idle <==> Oks(script) == |s.buffer| + 1
    decreases |script|
  {
    hide AfterEvent, Written, AllOutside;
    if |script| > 0 {
      var r := AfterEvent(s, script[0]);
      EventShape(s, script[0]);
      if |script| > 1 {
        OksOfFront(script);
      }
      if r.idle {
        assert script == [true] && script[1..] == [];
      } else {
        ScriptClosedForm(r, script[1..]);
        ClosedFormStep(s.buffer, Oks(script[1..]), script[0]);
      }
    }
  }

  // Every answered Write is counted once, as sent or as dropped; a failed StartCall costs no message.
  lemma {:induction false} ScriptCounters(s: State, script: seq<bool>)
    requires Quiet(s) && !s.idle && Fits(|s.buffer|, script)
    ensures var r := Play(s, script);
            && Quiet(r)
            && r.sent == s.sent + WritesAnswered(script, s.outstanding[0].Write?, true)
            && r.dropped == s.dropped + WritesAnswered(script, s.outstanding[0].Write?, false)
            && r.total == s.total && r.pushed == s.pushed
    decreases |script|
  {
    hide AfterEvent, Written, AllOutside;
    if |script| > 0 {
      var r := AfterEvent(s, script[0]);
      EventShape(s, script[0]);
      if |script| > 1 {
        OksOfFront(script);
      }
      if r.idle {
        assert script == [true] && script[1..] == [];
      } else {
        ScriptCounters(r, script[1..]);
      }
    }
  }

  // And those k messages are the ones written, in the order of the buffer.
  lemma {:induction false} ScriptWritesInOrder(s: State, script: seq<bool>)
    requires Quiet(s) && !s.idle && Fits(|s.buffer|, script)
    ensures Written(Play(s, script).log) == Written(s.log) + s.buffer[..Min(|s.buffer|, Oks(script))]
    decreases |script|
  {
    hide AfterEvent, Written, AllOutside;
    if |script| > 0 {
      var r := AfterEvent(s, script[0]);
      EventShape(s, script[0]);
      if |script| > 1 {
        OksOfFront(script);
      }
      if r.idle {
        assert script == [true] && script[1..] == [];
      } else {
        ScriptWritesInOrder(r, script[1..]);
        ClosedFormStep(s.buffer, Oks(script[1..]), script[0]);
      }
    }
  }

  lemma ClosedFormStep(b: seq<Message>, k: nat, ok: bool)
    ensures ok && b != [] ==> b[1..][Min(|b| - 1, k)..] == b[Min(|b|, k + 1)..]
    ensures ok && b != [] ==> [b[0]] + b[1..][..Min(|b| - 1, k)] == b[..Min(|b|, k + 1)]
  {
  }

  lemma EventShape(s: State, ok: bool)
    requires Quiet(s) && !s.idle
    ensures var r := AfterEvent(s, ok);
            && Quiet(r)
            && (r.idle <==> ok && s.buffer == [])
            && r.buffer == (if ok && s.buffer != [] then s.buffer[1..] else s.buffer)
            && (!r.idle ==> r.outstanding[0].Write? == ok)
            && Written(r.log) == Written(s.log) + (if ok && s.buffer != [] then [s.buffer[0]] else [])
            && r.sent == s.sent + (if s.outstanding[0].Write? && ok then 1 else 0)
            && r.dropped == s.dropped + (if s.outstanding[0].Write? && !ok then 1 else 0)
            && r.total == s.total && r.pushed == s.pushed
  {
    hide Written;
    QuietAfterEvent(s, ok);
    WrittenByEvent(s, ok);
  }

  lemma WrittenByEvent(s: State, ok: bool)
    requires Quiet(s) && !s.idle
    ensures Written(AfterEvent(s, ok).log) == Written(s.log) + (if ok && s.buffer != [] then [s.buffer[0]] else [])
  {
    var log := s.log + [Returned(s.outstanding[0], ok)];
    assert log[..|s.log|] == s.log;
    var r := AfterEvent(s, ok);
    assert |r.log| > |log| ==> r.log[..|log|] == log;
  }

  // With nothing but successes, everything that waits is written and sent, and the event loop ends idle.
  lemma {:induction false} Drain(s: State, script: seq<bool>)
    requires Quiet(s) && !s.idle
    requires |script| == |s.buffer| + 1 && forall k :: 0 <= k < |script| ==> script[k]
    ensures Play(s, script).idle && Play(s, script).buffer == []
    ensures Written(Play(s, script).log) == Written(s.log) + s.buffer
  {
    AllOks(script);
    AllOks(script[..|script| - 1]);
    ScriptClosedForm(s, script);
    ScriptWritesInOrder(s, script);
    assert s.buffer[..|s.buffer|] == s.buffer;
  }

  lemma {:induction false} AllOks(script: seq<bool>)
    requires forall k :: 0 <= k < |script| ==> script[k]
    ensures Oks(script) == |script|
  {
    if |script| > 0 {
      AllOks(script[1..]);
    }
  }

  // Playing a script is a run of the protocol.
  lemma {:induction false} PlayIsReachable(n: nat, s: State, script: seq<bool>)
    requires Reachable(n, s) && Quiet(s)
    ensures Reachable(n, Play(s, script))
    decreases |script|
  {
    hide Reachable, Run;
    if |script| > 0 && !s.idle {
      EventIsRun(s, script[0]);
      QuietAfterEvent(s, script[0]);
      ReachableRun(n, s, EventSteps(s, script[0]));
      PlayIsReachable(n, AfterEvent(s, script[0]), script[1..]);
    }
  }

  // ---------------------------------------------------------------- the reset

  // `resetClient` with nobody in the middle of anything; ok is the outcome of the operation it waits for.
  function AfterReset(s: State, ok: bool): State
    requires Quiet(s)
  {
    var r := s.(clientReset := true, buffer := [], cleared := s.cleared + s.buffer);
    (if r.outstanding == [] then r else AfterEvent(r, ok)).(active := None, resetter := Finished)
  }

  function ResetSteps(s: State, ok: bool): seq<Action> {
    [SetReset, ClearBuffer] +
    (if s.outstanding == [] then []
     else [Take(0, ok)] + (if s.outstanding[0].Write? then [CountResult] else []) + [LoadReset]) +
    [JoinLoop] + [DeleteStream]
  }

  lemma {:induction false} ResetIsRun(s: State, ok: bool)
    requires Quiet(s)
    ensures Run(s, ResetSteps(s, ok)) == Some(AfterReset(s, ok))
  {
    hide Run;
    RunNothing(s);
    RunSnoc(s, [], s, SetReset);
    var r1 := Apply(s, SetReset);
    RunSnoc(s, [] + [SetReset], r1, ClearBuffer);
    var r2 := Apply(r1, ClearBuffer);
    var acts := [SetReset, ClearBuffer];
    assert [] + [SetReset] + [ClearBuffer] == acts;
    var r3, rest := DrainIsRun(s, acts, r2, ok);
    RunSnoc(s, acts + rest, r3, JoinLoop);
    RunSnoc(s, acts + rest + [JoinLoop], Apply(r3, JoinLoop), DeleteStream);
    assert acts + rest + [JoinLoop] + [DeleteStream] == ResetSteps(s, ok);
  }

  lemma {:induction false} DrainIsRun(s: State, acts: seq<Action>, r: State, ok: bool)
      returns (r': State, rest: seq<Action>)
    requires Run(s, acts) == Some(r) && r.clientReset && r.resetter.Cleared? && r.loop.Waiting? && r.active.Some?
    requires |r.outstanding| <= 1
    ensures rest == if r.outstanding == [] then []
                    else [Take(0, ok)] + (if r.outstanding[0].Write? then [CountResult] else []) + [LoadReset]
    ensures Run(s, acts + rest) == Some(r')
    ensures r' == if r.outstanding == [] then r else AfterEvent(r, ok)
  {
    hide Run;
    r', rest := r, [];
    assert acts + rest == acts;
    if r.outstanding != [] {
      RunSnoc(s, acts, r, Take(0, ok));
      r' := Apply(r, Take(0, ok));
      rest := [Take(0, ok)];
      if r.outstanding[0].Write? {
        RunSnoc(s, acts + rest, r', CountResult);
        r' := Apply(r', CountResult);
        assert acts + rest + [CountResult] == acts + (rest + [CountResult]);
        rest := rest + [CountResult];
      }
      RunSnoc(s, acts + rest, r', LoadReset);
      r' := Apply(r', LoadReset);
      assert acts + rest + [LoadReset] == acts + (rest + [LoadReset]);
      rest := rest + [LoadReset];
    }
  }
}
