/** The buffer and the event loop of a stream, as they update their state in place. */
module CoreSse {
  import opened Wrappers
  import opened SseFraming
  import opened SseBuffer
  import opened SseSchedules
  import opened SseTheorems

  /** `coreSSEBuffer`: the channel and the terminal slot are its two queues. */
  class CoreSSEBuffer {
    const limits: Limits
    var messages: seq<Message>
    var terminal: Option<Reason>
    var bytes: int

    constructor (limits: Limits)
      ensures this.limits == limits && messages == [] && terminal == None && bytes == 0
    {
      this.limits := limits;
      messages, terminal, bytes := [], None, 0;
    }

    /** The buffer is the one of the stream `s`. */
    predicate Shows(s: Stream)
      reads this
    {
      messages == s.queue && terminal == s.terminal && bytes == s.bytes
    }

    method Fail(reason: Reason, ghost s: Stream)
      requires Shows(s)
      modifies this
      ensures Shows(SseBuffer.Fail(s, reason))
    {
      if terminal.None? { terminal := Some(reason); }
    }

    /** `enqueue`, whole: the admission test and the send with nothing between them. */
    method Enqueue(data: string, ghost s: Stream) returns (ghost t: Stream)
      requires Shows(s) && s.producer.Idle? && BytesInv(limits, s)
      modifies this
      ensures Shows(t) && t == Enqueued(limits, s, data)
    {
      var size := |data|;
      t := ArriveStep(limits, s, data);
      if size > limits.maxEventBytes {
        Fail(InvalidPayload, s.(arrivals := s.arrivals + [data]));
      } else if size > limits.maxBytes || bytes > limits.maxBytes - size || |messages| == limits.capacity {
        Fail(SlowConsumer, s.(arrivals := s.arrivals + [data]));
      } else {
        messages := messages + [Message(data, size)];
        bytes := bytes + size;
        t := CountStep(SendStep(limits, t));
      }
    }

    method Receive() returns (message: Message)
      requires messages != []
      modifies this
      ensures message == old(messages[0]) && messages == old(messages[1..]) && terminal == old(terminal)
              && bytes == old(bytes)
    {
      message := messages[0];
      messages := messages[1..];
    }

    /** `release`. */
    method Release(message: Message)
      modifies this
      ensures bytes == old(bytes) - message.size && messages == old(messages) && terminal == old(terminal)
    {
      bytes := bytes - message.size;
    }
  }

  /** A whole `enqueue` as the steps of the protocol: admission, and the send and the count if it was admitted. */
  function Enqueued(l: Limits, s: Stream, data: string): Stream
    requires s.producer.Idle? && |s.queue| <= l.capacity
  {
    var t := ArriveStep(l, s, data);
    if t.producer.Sending? then CountStep(SendStep(l, t)) else t
  }

  ghost predicate Runs(l: Limits, valid: string -> bool, run: seq<Step>, s: Stream) {
    Reaches(l, valid, NewStream(), run, s)
  }

  lemma RunsNext(l: Limits, valid: string -> bool, run: seq<Step>, s: Stream, step: Step)
    requires Runs(l, valid, run, s) && Enabled(s, step)
    ensures Runs(l, valid, run + [step], Apply(l, s, step, valid))
  {
    ReachesNext(l, valid, NewStream(), run, s, step);
  }

  /** The bytes a waiting stream has written. */
  lemma WaitingTranscript(s: Stream)
    requires ControlOf(s.consumer) == []
    ensures Transcript(s) == StreamText(s.body)
  {
    assert s.body + [] == s.body;
  }

  lemma EndedTranscript(s: Stream, c: Consumer, e: Event)
    requires ControlOf(c) == [e]
    ensures Transcript(s.(consumer := c)) == StreamText(s.body) + FrameText(Control(e.kind, e.data))
  {
    StreamTextAppend(s.body, Control(e.kind, e.data));
  }

  // ----- the rounds of the loop, as the account has them --------------------------------------

  lemma QueuedTotal(l: Limits, s: Stream)
    requires BytesInv(l, s) && s.producer.Idle? && s.consumer.Waiting?
    ensures s.bytes == Total(Datas(s.queue))
  {
    SizesTotal(l, s.queue);
  }

  lemma ArrivalTells(l: Limits, valid: string -> bool, s: Stream, w: Account, data: string)
    requires BytesInv(l, s) && s.producer.Idle? && Tells(s, w) && w.end.None?
    ensures Tells(Enqueued(l, s, data), Act(l, valid, w, Arrival(data)))
  {
    QueuedTotal(l, s);
    assert Datas(s.queue + [Message(data, |data|)]) == Datas(s.queue) + [data];
  }

  lemma MessageTells(l: Limits, valid: string -> bool, s: Stream, w: Account, t: Stream)
    requires BytesInv(l, s) && s.producer.Idle? && Tells(s, w) && w.end.None? && s.queue != []
    requires t == WriteStep(l, s.(queue := s.queue[1..], bytes := s.bytes - s.queue[0].size,
                                  consumer := Writing(s.queue[0])), valid)
    ensures Tells(t, Act(l, valid, w, MessageReady))
  {
    assert Datas(s.queue)[1..] == Datas(s.queue[1..]);
  }

  /** An arrival between two rounds of the loop. */
  method OnArrival(buffer: CoreSSEBuffer, data: string, valid: string -> bool, ghost run: seq<Step>, ghost s: Stream,
                   ghost w: Account)
    returns (ghost run': seq<Step>, ghost s': Stream)
    requires Tells(s, w)
    requires buffer.Shows(s) && Runs(buffer.limits, valid, run, s) && s.producer.Idle? && s.consumer.Waiting?
    modifies buffer
    ensures buffer.Shows(s') && Runs(buffer.limits, valid, run', s') && s'.producer.Idle? && s'.consumer.Waiting?
            && s'.body == s.body && Tells(s', Act(buffer.limits, valid, w, Arrival(data)))
  {
    ReachableInv(buffer.limits, valid, run, s);
    ArrivalTells(buffer.limits, valid, s, w, data);
    RunsNext(buffer.limits, valid, run, s, Arrive(data));
    run' := run + [Arrive(data)];
    ghost var t := ArriveStep(buffer.limits, s, data);
    if t.producer.Sending? {
      RunsNext(buffer.limits, valid, run', t, Send);
      RunsNext(buffer.limits, valid, run' + [Send], SendStep(buffer.limits, t), Count);
      run' := run' + [Send] + [Count];
    }
    s' := buffer.Enqueue(data, s);
  }

  /** A message is received, released and written, or ends the stream when it is not acceptable text. */
  method OnMessage(buffer: CoreSSEBuffer, valid: string -> bool, out: string, ghost run: seq<Step>, ghost s: Stream,
                   ghost w: Account)
    returns (out': string, done: bool, ghost run': seq<Step>, ghost s': Stream)
    requires Tells(s, w)
    requires buffer.Shows(s) && Runs(buffer.limits, valid, run, s) && s.producer.Idle? && s.consumer.Waiting?
             && s.queue != []
    requires out == StreamText(s.body)
    modifies buffer
    ensures buffer.Shows(s') && Runs(buffer.limits, valid, run', s') && s'.producer.Idle?
    ensures Tells(s', Act(buffer.limits, valid, w, MessageReady)) && (done <==> s'.consumer.Ended?)
    ensures !done ==> s'.consumer.Waiting? && out' == StreamText(s'.body)
    ensures done ==> out' == Transcript(s')
  {
    ghost var l := buffer.limits;
    ReachableInv(l, valid, run, s);
    ghost var held, writing := Apply(l, s, Receive, valid), Apply(l, Apply(l, s, Receive, valid), Release, valid);
    RunsNext(l, valid, run, s, Receive);
    RunsNext(l, valid, run + [Receive], held, Release);
    RunsNext(l, valid, run + [Receive] + [Release], writing, Write);
    run', s' := run + [Receive] + [Release] + [Write], WriteStep(l, writing, valid);
    MessageTells(l, valid, s, w, s');
    var message := buffer.Receive();
    buffer.Release(message);
    if |message.data| > buffer.limits.maxEventBytes || !valid(message.data) {
      out' := out + FrameText(Control("error", "invalid event payload"));
      EndedTranscript(writing, Ended(BadText(message)), Event("error", "invalid event payload"));
      done := true;
    } else {
      var text := WriteData(message.data);
      StreamTextAppend(s.body, Data(message.data));
      out', done := out + text, false;
    }
  }

  /** The rounds that end the stream, and the heartbeat. */
  method OnSignal(buffer: CoreSSEBuffer, ready: Ready, valid: string -> bool, out: string, ghost run: seq<Step>,
                  ghost s: Stream, ghost w: Account)
    returns (out': string, done: bool, ghost run': seq<Step>, ghost s': Stream)
    requires Tells(s, w)
    requires buffer.Shows(s) && Runs(buffer.limits, valid, run, s) && s.producer.Idle? && s.consumer.Waiting?
    requires out == StreamText(s.body) && !ready.Arrival? && !ready.MessageReady?
             && (ready.TerminalReady? ==> s.terminal.Some?)
    modifies buffer
    ensures buffer.Shows(s') && Runs(buffer.limits, valid, run', s') && s'.producer.Idle?
    ensures Tells(s', Act(buffer.limits, valid, w, ready)) && (done <==> s'.consumer.Ended?)
    ensures !done ==> s'.consumer.Waiting? && out' == StreamText(s'.body)
    ensures done ==> out' == Transcript(s')
  {
    ghost var l := buffer.limits;
    match ready
    case TerminalReady =>
      var reason := buffer.terminal.value;
      buffer.terminal := None;
      RunsNext(l, valid, run, s, TakeTerminal);
      run', s' := run + [TakeTerminal], Apply(l, s, TakeTerminal, valid);
      EndedTranscript(s.(terminal := None), Ended(Reported(reason)), Event("error", ReasonText(reason)));
      out', done := out + FrameText(Control("error", ReasonText(reason))), true;
    case DurationOver =>
      RunsNext(l, valid, run, s, TimeOut);
      run', s' := run + [TimeOut], Apply(l, s, TimeOut, valid);
      EndedTranscript(s, Ended(TimedOut), Event("close", "maximum duration reached"));
      out', done := out + FrameText(Control("close", "maximum duration reached")), true;
    case Beat =>
      RunsNext(l, valid, run, s, Heartbeat);
      run', s' := run + [Heartbeat], Apply(l, s, Heartbeat, valid);
      StreamTextAppend(s.body, Comment("heartbeat"));
      out', done := out + FrameText(Comment("heartbeat")), false;
    case Gone =>
      RunsNext(l, valid, run, s, Cancel);
      run', s' := run + [Cancel], Apply(l, s, Cancel, valid);
      WaitingTranscript(s');
      out', done := out, true;
  }

  /**
   The event loop of `serveCoreSSE`, over whatever the loop finds ready in turn
   and whatever arrives between its rounds.  It does with the schedule, item by
   item, what the account says; what it writes is the transcript of that run of the
   protocol, and a client reads from it exactly the delivered payloads, in order,
   and the control event.
   */
  method Serve(buffer: CoreSSEBuffer, schedule: seq<Ready>, valid: string -> bool)
    returns (out: string, ghost run: seq<Step>, ghost s: Stream)
    requires buffer.messages == [] && buffer.terminal == None && buffer.bytes == 0
    modifies buffer
    ensures Tells(s, Follow(buffer.limits, valid, schedule))
    ensures buffer.Shows(s) && Runs(buffer.limits, valid, run, s) && out == Transcript(s)
    ensures Decode(out) == CanonicalMessages(Payloads(s.body)) + ControlOf(s.consumer)
            <==> AllAtLineEnds(Payloads(s.body))
    ensures AllAtLineEnds(Payloads(s.body)) ==> Decode(out) == Messages(Payloads(s.body)) + ControlOf(s.consumer)
  {
    run, s := [], NewStream();
    out := FrameText(Comment("connected"));
    assert StreamText(s.body) == out by { assert s.body[1..] == []; }
    var done := false;
    ghost var w := NothingYet();
    for i := 0 to |schedule|
      invariant buffer.Shows(s) && Runs(buffer.limits, valid, run, s) && s.producer.Idle?
      invariant w == Follow(buffer.limits, valid, schedule[..i]) && Tells(s, w) && (done <==> s.consumer.Ended?)
      invariant !done ==> s.consumer.Waiting? && out == StreamText(s.body)
      invariant done ==> out == Transcript(s)
    {
      if done {
        StaysEnded(buffer.limits, valid, schedule, i);
        assert schedule[..|schedule|] == schedule;
        break;
      }
      var ready := schedule[i];
      FollowNext(buffer.limits, valid, schedule, i);
      ghost var next := Act(buffer.limits, valid, w, ready);
      if ready.Arrival? {
        run, s := OnArrival(buffer, ready.data, valid, run, s, w);
      } else if ready.MessageReady? {
        if buffer.messages != [] { out, done, run, s := OnMessage(buffer, valid, out, run, s, w); }
      } else if !ready.TerminalReady? || buffer.terminal.Some? {
        out, done, run, s := OnSignal(buffer, ready, valid, out, run, s, w);
      }
      w := next;
    }
    if !done { WaitingTranscript(s); }
    assert w == Follow(buffer.limits, valid, schedule) by { assert schedule[..|schedule|] == schedule; }
    TranscriptDecodes(buffer.limits, valid, run, s);
  }

  /** The deadline of a stream: its maximum duration, or the lease's end if that is sooner. */
  method StreamDeadline(now: int, maxDuration: int, leaseEnd: Option<int>) returns (deadline: int)
    ensures deadline <= now + maxDuration && (leaseEnd.Some? ==> deadline <= leaseEnd.value)
    ensures deadline == now + maxDuration || Some(deadline) == leaseEnd
  {
    deadline := now + maxDuration;
    if leaseEnd.Some? && leaseEnd.value < deadline { deadline := leaseEnd.value; }
  }
}
