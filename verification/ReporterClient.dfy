/** `TraceAsyncClientImpl` and the objects it works on, in the form of the source: each method does to the
    fields what an undisturbed run of the protocol does to its state. */
module ReporterClient {
  import opened Wrappers
  import opened ReporterProtocol
  import opened ReporterProgress
  import VB = ValueBuffer

  // The completion queue keeps what is posted and gives it back, one operation at a time; the caller says
  // which outcome the environment chose.
  class CompletionQueue {
    var posted: seq<Op>
    ghost var log: seq<Event>

    constructor ()
      ensures posted == [] && log == []
    {
      posted := [];
      log := [];
    }

    method Post(op: Op)
      modifies this
      ensures posted == old(posted) + [op] && log == old(log) + [Posted(op)]
    {
      posted := posted + [op];
      log := log + [Posted(op)];
    }

    method Next(ghost ok: bool) returns (tag: Option<Op>)
      modifies this
      ensures old(posted) == [] ==> tag == None && posted == [] && log == old(log)
      ensures old(posted) != [] ==>
                && tag == Some(old(posted)[0]) && posted == old(posted)[1..]
                && log == old(log) + [Returned(old(posted)[0], ok)]
    {
      if |posted| == 0 {
        return None;
      }
      tag := Some(posted[0]);
      log := log + [Returned(posted[0], ok)];
      posted := posted[1..];
    }
  }

  // Creating a stream posts its StartCall.
  class TraceAsyncStream {
    const id: nat
    const cq: CompletionQueue

    constructor (id: nat, cq: CompletionQueue)
      modifies cq
      ensures this.id == id && this.cq == cq
      ensures cq.posted == old(cq.posted) + [StartCall(id)] && cq.log == old(cq.log) + [Posted(StartCall(id))]
    {
      this.id := id;
      this.cq := cq;
      new;
      cq.Post(StartCall(id));
    }

    method SendMessage(message: Message)
      modifies cq
      ensures cq.posted == old(cq.posted) + [Write(id, message)]
      ensures cq.log == old(cq.log) + [Posted(Write(id, message))]
    {
      cq.Post(Write(id, message));
    }
  }

  class TraceAsyncClient {
    var messagesTotal: nat
    var messagesDropped: nat
    var messagesSent: nat
    var clientReset: bool
    var eventLoopIdle: bool
    var activeStream: TraceAsyncStream?
    const cq: CompletionQueue
    const messageBuffer: VB.ValueBuffer<Message>
    // The number of streams created so far, which identifies the next one.
    var created: nat
    // The messages pushed, and the messages that a reset cleared.
    ghost var pushed: seq<Message>
    ghost var cleared: seq<Message>

    ghost predicate Valid()
      reads this, activeStream
    {
      activeStream != null ==> activeStream.cq == cq
    }

    // The state of the protocol between two calls, with one producer.
    ghost function Model(): State
      reads this, activeStream, cq, messageBuffer
    {
      State(messagesTotal, messagesDropped, messagesSent, eventLoopIdle,
            if activeStream == null then None else Some(activeStream.id),
            clientReset, messageBuffer.buf, cq.posted, [Outside], Waiting,
            if clientReset then Finished else Running,
            false, created, cq.log, pushed, cleared)
    }

    constructor ()
      ensures Valid() && fresh(cq) && fresh(messageBuffer)
      ensures Model() == Init(1)
      ensures messagesTotal == messagesDropped == messagesSent == 0 && !clientReset && !eventLoopIdle
      ensures activeStream != null && activeStream.id == 0 && cq.posted == [StartCall(0)] && messageBuffer.buf == []
    {
      messagesTotal, messagesDropped, messagesSent := 0, 0, 0;
      clientReset, eventLoopIdle, activeStream := false, false, null;
      cq := new CompletionQueue();
      messageBuffer := new VB.ValueBuffer();
      created, pushed, cleared := 0, [], [];
      new;
      StartStream();
      assert Model().producers == Init(1).producers;
    }

    method ResetStream()
      requires Valid()
      modifies this`activeStream
      ensures Valid() && Model() == old(Model()).(active := None)
    {
      activeStream := null;
    }

    method StartStream()
      requires Valid()
      modifies this`activeStream, this`created, cq
      ensures Valid() && Model() == AfterStart(old(Model()))
    {
      if activeStream != null {
        ResetStream();
      }
      activeStream := new TraceAsyncStream(created, cq);
      created := created + 1;
    }

    method MarkEventLoopIdle()
      requires Valid()
      modifies this`eventLoopIdle
      ensures Valid() && Model() == old(Model()).(idle := true)
    {
      eventLoopIdle := true;
    }

    // compare_exchange_strong(true, false)
    method TakeIdleFlag() returns (taken: bool)
      requires Valid()
      modifies this`eventLoopIdle
      ensures taken == old(eventLoopIdle) && Valid() && Model() == old(Model()).(idle := false)
    {
      taken := eventLoopIdle;
      if taken {
        eventLoopIdle := false;
      }
    }

    method SendMessageOnce()
      requires Valid() && (eventLoopIdle ==> activeStream != null)
      modifies this`eventLoopIdle, messageBuffer, cq
      ensures Valid() && Model() == AfterOnce(old(Model()))
    {
      var taken := TakeIdleFlag();
      if taken {
        assert activeStream != null;
        var message := messageBuffer.PopFront();
        if message.None? {
          MarkEventLoopIdle();
          return;
        }
        activeStream.SendMessage(message.value);
      }
    }

    method SendMessage(message: Message)
      requires Valid() && (eventLoopIdle ==> activeStream != null)
      modifies this`messagesTotal, this`messagesDropped, this`eventLoopIdle, this`pushed, messageBuffer, cq
      ensures Valid() && Model() == AfterSend(old(Model()), message)
      ensures messagesTotal == old(messagesTotal) + 1
      ensures old(|messageBuffer.buf|) <= 1024 ==>
                && messagesDropped == old(messagesDropped)
                && pushed == old(pushed) + [message]
                && messageBuffer.buf == (old(messageBuffer.buf) + [message])[if old(eventLoopIdle) then 1 else 0..]
                && (!old(eventLoopIdle) ==> cq.posted == old(cq.posted))
                && (old(eventLoopIdle) ==>
                      !eventLoopIdle
                      && cq.posted == old(cq.posted)
                                      + [Write(activeStream.id, (old(messageBuffer.buf) + [message])[0])])
      ensures old(|messageBuffer.buf|) >= 1025 ==>
                && messagesDropped == old(messagesDropped) + 1
                && pushed == old(pushed)
                && messageBuffer.buf == old(messageBuffer.buf)
                && cq.posted == old(cq.posted) && eventLoopIdle == old(eventLoopIdle)
    {
      messagesTotal := messagesTotal + 1;
      var pending := messageBuffer.Size();
      if pending > MAX_PENDING_MESSAGES {
        messagesDropped := messagesDropped + 1;
        return;
      }
      messageBuffer.PushBack(message);
      pushed := pushed + [message];
      SendMessageOnce();
    }

    // basic_event_tag_; the precondition on the flag is the assertion in the failing branch.
    method OnBasicEvent(ok: bool)
      requires Valid() && activeStream != null
      requires !clientReset && !ok ==> !eventLoopIdle
      modifies this`eventLoopIdle, this`activeStream, this`created, messageBuffer, cq
      ensures Valid() && Model() == AfterBasicEvent(old(Model()), ok)
    {
      if clientReset {
        return;
      }
      if ok {
        MarkEventLoopIdle();
        SendMessageOnce();
        return;
      } else {
        assert !eventLoopIdle;
        StartStream();
      }
    }

    // write_event_tag_
    method OnWriteEvent(ok: bool)
      requires Valid() && activeStream != null
      requires !clientReset && !ok ==> !eventLoopIdle
      modifies this`messagesSent, this`messagesDropped, this`eventLoopIdle, this`activeStream, this`created,
               messageBuffer, cq
      ensures Valid()
      ensures var s := old(Model());
              Model() == AfterBasicEvent(if ok then s.(sent := s.sent + 1) else s.(dropped := s.dropped + 1), ok)
    {
      if ok {
        messagesSent := messagesSent + 1;
      } else {
        messagesDropped := messagesDropped + 1;
      }
      OnBasicEvent(ok);
    }

    // One turn of the event loop: take an operation from the queue and call its tag.
    method HandleNext(ok: bool) returns (status: bool)
      requires Valid() && activeStream != null && |cq.posted| <= 1
      requires cq.posted != [] && !clientReset ==> !eventLoopIdle
      modifies this`messagesSent, this`messagesDropped, this`eventLoopIdle, this`activeStream, this`created,
               messageBuffer, cq
      ensures Valid() && status == (old(cq.posted) != [])
      ensures Model() == if old(Model()).outstanding == [] then old(Model()) else AfterEvent(old(Model()), ok)
    {
      var tag := cq.Next(ok);
      if tag.None? {
        return false;
      }
      assert cq.posted == [];
      match tag.value {
        case StartCall(_) => OnBasicEvent(ok);
        case Write(_, _) => OnWriteEvent(ok);
      }
      return true;
    }

    // The event loop over the outcomes the environment chooses, until nothing is outstanding.
    method Gogo(script: seq<bool>)
      requires Valid() && Quiet(Model())
      modifies this`messagesSent, this`messagesDropped, this`eventLoopIdle, this`activeStream, this`created,
               messageBuffer, cq
      ensures Valid() && Quiet(Model())
      ensures Model() == Play(old(Model()), script)
    {
      var i := 0;
      while i < |script|
        invariant 0 <= i <= |script| && Valid() && Quiet(Model())
        invariant Play(Model(), script[i..]) == Play(old(Model()), script)
      {
        if !eventLoopIdle {
          QuietAfterEvent(Model(), script[i]);
        }
        var status := HandleNext(script[i]);
        if !status {
          break;
        }
        i := i + 1;
      }
    }

    // After the flag is set, the callback of the last operation only counts; nothing new is posted.
    method ResetClient(lastOutcome: bool)
      requires Valid() && Quiet(Model())
      modifies this, messageBuffer, cq
      ensures Valid() && Model() == AfterReset(old(Model()), lastOutcome)
    {
      clientReset := true;
      cleared := cleared + messageBuffer.buf;
      messageBuffer.Clear();
      var status := HandleNext(lastOutcome);
      ResetStream();
    }
  }
}
