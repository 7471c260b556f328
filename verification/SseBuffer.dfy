/**
 The bounded buffer between a subscription and a stream, and the stream's event
 loop, as steps that interleave.  The producer holds the buffer's lock from its
 admission test until it has sent the message and counted its bytes; the consumer
 takes messages without the lock, also between those two, and needs the lock to
 release their bytes.
 */
module SseBuffer {
  import opened Wrappers
  import opened SseFraming

  datatype Reason = SlowConsumer | InvalidPayload

  datatype Message = Message(data: string, size: int)

  /** The channel's capacity and the limits of the buffer. */
  datatype Limits = Limits(capacity: nat, maxBytes: int, maxEventBytes: int)

  /** With the lock: about to send an admitted message, or to count the bytes of a message just sent. */
  datatype Producer = Idle | Sending(message: Message) | Counting(message: Message)

  datatype End = Silent | Reported(reason: Reason) | BadText(message: Message) | TimedOut

  datatype Consumer = Waiting | Holding(message: Message) | Writing(message: Message) | Ended(end: End)

  /**
   The buffer (`queue`, `terminal`, `bytes`), the two parties, the frames written,
   and as history every arrival, the positions of those admitted, and every
   failure signalled.
   */
  datatype Stream = Stream(queue: seq<Message>, terminal: Option<Reason>, bytes: int, producer: Producer,
                           consumer: Consumer, body: seq<Frame>, arrivals: seq<string>, admitted: seq<nat>,
                           failures: seq<Reason>)

  datatype Step =
    | Arrive(data: string) | Send | Count | Receive | Release | Write
    | TakeTerminal | TimeOut | Heartbeat | Cancel

  function NewStream(): Stream {
    Stream([], None, 0, Idle, Waiting, [Comment("connected")], [], [], [])
  }

  /** `fail`: the first reason stays in the slot. */
  function Fail(s: Stream, reason: Reason): Stream {
    s.(terminal := if s.terminal.None? then Some(reason) else s.terminal, failures := s.failures + [reason])
  }

  /** The admission test of `enqueue`, with the lock taken. */
  function ArriveStep(l: Limits, s: Stream, data: string): Stream {
    var size := |data|;
    var t := s.(arrivals := s.arrivals + [data]);
    if size > l.maxEventBytes then Fail(t, InvalidPayload)
    else if size > l.maxBytes || s.bytes > l.maxBytes - size || |s.queue| == l.capacity then Fail(t, SlowConsumer)
    else t.(producer := Sending(Message(data, size)), admitted := s.admitted + [|s.arrivals|])
  }

  /** The non-blocking send of `enqueue`. */
  function SendStep(l: Limits, s: Stream): Stream
    requires s.producer.Sending?
  {
    var m := s.producer.message;
    if |s.queue| < l.capacity then s.(queue := s.queue + [m], producer := Counting(m))
    else Fail(s.(producer := Idle), SlowConsumer)
  }

  /** `buffer.bytes += size`, and the end of the critical section. */
  function CountStep(s: Stream): Stream
    requires s.producer.Counting?
  {
    s.(bytes := s.bytes + s.producer.message.size, producer := Idle)
  }

  function WriteStep(l: Limits, s: Stream, valid: string -> bool): Stream
    requires s.consumer.Writing?
  {
    var m := s.consumer.message;
    if |m.data| > l.maxEventBytes || !valid(m.data) then s.(consumer := Ended(BadText(m)))
    else s.(consumer := Waiting, body := s.body + [Data(m.data)])
  }

  predicate Enabled(s: Stream, step: Step) {
    match step
    case Arrive(_) => s.producer.Idle?
    case Send => s.producer.Sending?
    case Count => s.producer.Counting?
    case Receive => s.consumer.Waiting? && s.queue != []
    case Release => s.consumer.Holding? && s.producer.Idle?
    case Write => s.consumer.Writing?
    case TakeTerminal => s.consumer.Waiting? && s.terminal.Some?
    case TimeOut => s.consumer.Waiting?
    case Heartbeat => s.consumer.Waiting?
    case Cancel => s.consumer.Waiting?
  }

  function Apply(l: Limits, s: Stream, step: Step, valid: string -> bool): Stream
    requires Enabled(s, step)
  {
    match step
    case Arrive(data) => ArriveStep(l, s, data)
    case Send => SendStep(l, s)
    case Count => CountStep(s)
    case Receive => s.(queue := s.queue[1..], consumer := Holding(s.queue[0]))
    case Release => s.(bytes := s.bytes - s.consumer.message.size, consumer := Writing(s.consumer.message))
    case Write => WriteStep(l, s, valid)
    case TakeTerminal => s.(terminal := None, consumer := Ended(Reported(s.terminal.value)))
    case TimeOut => s.(consumer := Ended(TimedOut))
    case Heartbeat => s.(body := s.body + [Comment("heartbeat")])
    case Cancel => s.(consumer := Ended(Silent))
  }

  /** `run` leads from `s` to `t`. */
  predicate Reaches(l: Limits, valid: string -> bool, s: Stream, run: seq<Step>, t: Stream)
    decreases |run|
  {
    if run == [] then s == t
    else Enabled(s, run[0]) && Reaches(l, valid, Apply(l, s, run[0], valid), run[1..], t)
  }

  // ----- bytes --------------------------------------------------------------------------------

  function Sizes(queue: seq<Message>): int {
    if queue == [] then 0 else queue[0].size + Sizes(queue[1..])
  }

  lemma {:induction false} SizesAppend(a: seq<Message>, m: Message)
    ensures Sizes(a + [m]) == Sizes(a) + m.size
  {
    if a == [] {
      assert a + [m] == [m] && [m][1..] == [];
    } else {
      assert (a + [m])[1..] == a[1..] + [m];
      SizesAppend(a[1..], m);
    }
  }

  predicate Sized(l: Limits, m: Message) {
    m.size == |m.data| <= l.maxEventBytes
  }

  /** The bytes of a message that was received and not yet released. */
  function Unreleased(c: Consumer): int {
    if c.Holding? then c.message.size else 0
  }

  /** The bytes of a message that was sent and not yet counted. */
  function Uncounted(p: Producer): int {
    if p.Counting? then p.message.size else 0
  }

  /**
   The byte count, with a message not yet counted, is the queued sizes and the
   received, unreleased one, within the limit; a message being sent fits into the
   bytes and into the channel.
   */
  predicate BytesInv(l: Limits, s: Stream) {
    && s.bytes + Uncounted(s.producer) == Sizes(s.queue) + Unreleased(s.consumer)
    && 0 <= s.bytes && (s.bytes <= l.maxBytes || s.bytes == 0)
    && |s.queue| <= l.capacity
    && (forall i :: 0 <= i < |s.queue| ==> Sized(l, s.queue[i]))
    && (s.consumer.Holding? || s.consumer.Writing? ==> Sized(l, s.consumer.message))
    && (!s.producer.Idle? ==> Sized(l, s.producer.message) && s.bytes + s.producer.message.size <= l.maxBytes)
    && (s.producer.Sending? ==> |s.queue| < l.capacity)
  }

  lemma ReceiveBytes(l: Limits, s: Stream)
    requires BytesInv(l, s) && s.consumer.Waiting? && s.queue != []
    ensures BytesInv(l, s.(queue := s.queue[1..], consumer := Holding(s.queue[0])))
  {
    assert Sizes(s.queue) == s.queue[0].size + Sizes(s.queue[1..]);
    SizesNonNegative(l, s.queue[1..]);
  }

  lemma BytesKept(l: Limits, s: Stream, step: Step, valid: string -> bool)
    requires BytesInv(l, s) && Enabled(s, step)
    ensures BytesInv(l, Apply(l, s, step, valid))
  {
    match step
    case Send => SizesAppend(s.queue, s.producer.message);
    case Receive => ReceiveBytes(l, s);
    case Release => SizesNonNegative(l, s.queue);
    case _ =>
  }

  lemma {:induction false} SizesNonNegative(l: Limits, queue: seq<Message>)
    requires forall i :: 0 <= i < |queue| ==> Sized(l, queue[i])
    ensures Sizes(queue) >= 0
  {
    if queue != [] { SizesNonNegative(l, queue[1..]); }
  }

  // ----- order --------------------------------------------------------------------------------

  function Payloads(body: seq<Frame>): seq<string> {
    if body == [] then []
    else Payloads(body[..|body| - 1]) + (if body[|body| - 1].Data? then [body[|body| - 1].payload] else [])
  }

  function Datas(queue: seq<Message>): (datas: seq<string>)
    ensures |datas| == |queue| && forall i :: 0 <= i < |queue| ==> datas[i] == queue[i].data
  {
    seq(|queue|, i requires 0 <= i < |queue| => queue[i].data)
  }

  /** The message the consumer has in hand, or ended with. */
  function InHand(c: Consumer): seq<string> {
    match c
    case Holding(m) => [m.data]
    case Writing(m) => [m.data]
    case Ended(BadText(m)) => [m.data]
    case _ => []
  }

  function InFlight(p: Producer): seq<string> {
    if p.Sending? then [p.message.data] else []
  }

  /** Everything admitted, from the first delivered to the one being sent. */
  function Pipeline(s: Stream): seq<string> {
    Payloads(s.body) + InHand(s.consumer) + Datas(s.queue) + InFlight(s.producer)
  }

  /** The admitted messages are arrivals in order, none twice. */
  predicate InOrder(pipeline: seq<string>, arrivals: seq<string>, admitted: seq<nat>) {
    && |admitted| == |pipeline|
    && (forall i, j :: 0 <= i < j < |admitted| ==> admitted[i] < admitted[j])
    && (forall i :: 0 <= i < |admitted| ==> admitted[i] < |arrivals| && pipeline[i] == arrivals[admitted[i]])
  }

  /** Every arrival is admitted or signals a failure, and the first failure is the one in the slot or reported. */
  predicate FailuresInv(s: Stream) {
    && |s.failures| + |s.admitted| == |s.arrivals|
    && (if s.consumer.Ended? && s.consumer.end.Reported? then s.failures != [] && s.consumer.end.reason == s.failures[0]
        else if s.failures == [] then s.terminal.None? else s.terminal == Some(s.failures[0]))
  }

  predicate Inv(l: Limits, s: Stream) {
    BytesInv(l, s) && InOrder(Pipeline(s), s.arrivals, s.admitted) && FailuresInv(s)
  }

  lemma PayloadsNext(body: seq<Frame>, f: Frame)
    ensures Payloads(body + [f]) == Payloads(body) + (if f.Data? then [f.payload] else [])
  {
    assert (body + [f])[..|body|] == body;
  }

  lemma SendShift(p: seq<string>, h: seq<string>, q: seq<string>, x: string)
    ensures p + h + (q + [x]) + [] == p + h + q + [x]
  {
  }

  lemma ReceiveShift(p: seq<string>, x: string, q: seq<string>, f: seq<string>)
    ensures p + [] + ([x] + q) + f == p + [x] + q + f
  {
  }

  lemma WriteShift(p: seq<string>, x: string, q: seq<string>, f: seq<string>)
    ensures (p + [x]) + [] + q + f == p + [x] + q + f
  {
  }

  lemma AdmitShift(p: seq<string>, h: seq<string>, q: seq<string>, x: string)
    ensures p + h + q + [x] == (p + h + q + []) + [x]
  {
  }

  lemma ReceivePipeline(s: Stream)
    requires s.consumer.Waiting? && s.queue != []
    ensures Pipeline(s.(queue := s.queue[1..], consumer := Holding(s.queue[0]))) == Pipeline(s)
  {
    var x, q := s.queue[0].data, Datas(s.queue[1..]);
    assert Datas(s.queue) == [x] + q;
    ReceiveShift(Payloads(s.body), x, q, InFlight(s.producer));
  }

  lemma WritePipeline(l: Limits, s: Stream, valid: string -> bool)
    requires s.consumer.Writing?
    ensures Pipeline(WriteStep(l, s, valid)) == Pipeline(s)
  {
    var x := s.consumer.message.data;
    PayloadsNext(s.body, Data(x));
    WriteShift(Payloads(s.body), x, Datas(s.queue), InFlight(s.producer));
  }

  lemma HeartbeatPipeline(s: Stream)
    ensures Pipeline(s.(body := s.body + [Comment("heartbeat")])) == Pipeline(s)
  {
    PayloadsNext(s.body, Comment("heartbeat"));
    assert Payloads(s.body) + [] == Payloads(s.body);
  }

  /** Steps of the consumer move messages along the pipeline. */
  lemma ConsumerPipeline(l: Limits, s: Stream, step: Step, valid: string -> bool)
    requires Enabled(s, step) && !step.Arrive? && !step.Send?
    ensures Pipeline(Apply(l, s, step, valid)) == Pipeline(s)
  {
    match step
    case Receive => ReceivePipeline(s);
    case Write => WritePipeline(l, s, valid);
    case Heartbeat => HeartbeatPipeline(s);
    case _ =>
  }

  lemma SendPipeline(l: Limits, s: Stream)
    requires BytesInv(l, s) && s.producer.Sending?
    ensures Pipeline(SendStep(l, s)) == Pipeline(s)
  {
    var x := s.producer.message.data;
    assert Datas(s.queue + [s.producer.message]) == Datas(s.queue) + [x];
    SendShift(Payloads(s.body), InHand(s.consumer), Datas(s.queue), x);
  }

  /** A step moves messages along the pipeline or admits one more at its end. */
  lemma PipelineKept(l: Limits, s: Stream, step: Step, valid: string -> bool)
    requires BytesInv(l, s) && Enabled(s, step)
    ensures var t := Apply(l, s, step, valid);
            if t.admitted == s.admitted then Pipeline(t) == Pipeline(s)
            else step.Arrive? && t.admitted == s.admitted + [|s.arrivals|] && Pipeline(t) == Pipeline(s) + [step.data]
  {
    if step.Arrive? {
      AdmitShift(Payloads(s.body), InHand(s.consumer), Datas(s.queue), step.data);
    } else if step.Send? {
      SendPipeline(l, s);
    } else {
      ConsumerPipeline(l, s, step, valid);
    }
  }

  lemma InOrderKept(pipeline: seq<string>, arrivals: seq<string>, admitted: seq<nat>, data: string)
    requires InOrder(pipeline, arrivals, admitted)
    ensures InOrder(pipeline, arrivals + [data], admitted)
    ensures InOrder(pipeline + [data], arrivals + [data], admitted + [|arrivals|])
  {
  }

  lemma OrderKept(l: Limits, s: Stream, step: Step, valid: string -> bool)
    requires BytesInv(l, s) && InOrder(Pipeline(s), s.arrivals, s.admitted) && Enabled(s, step)
    ensures var t := Apply(l, s, step, valid); InOrder(Pipeline(t), t.arrivals, t.admitted)
  {
    PipelineKept(l, s, step, valid);
    if step.Arrive? { InOrderKept(Pipeline(s), s.arrivals, s.admitted, step.data); }
  }

  lemma FailuresKept(l: Limits, s: Stream, step: Step, valid: string -> bool)
    requires BytesInv(l, s) && FailuresInv(s) && Enabled(s, step)
    ensures FailuresInv(Apply(l, s, step, valid))
  {
  }

  lemma StepKeepsInv(l: Limits, s: Stream, step: Step, valid: string -> bool)
    requires Inv(l, s) && Enabled(s, step)
    ensures Inv(l, Apply(l, s, step, valid))
  {
    BytesKept(l, s, step, valid);
    OrderKept(l, s, step, valid);
    FailuresKept(l, s, step, valid);
  }

  lemma {:induction false} RunKeepsInv(l: Limits, valid: string -> bool, s: Stream, run: seq<Step>, t: Stream)
    requires Inv(l, s) && Reaches(l, valid, s, run, t)
    ensures Inv(l, t)
    decreases |run|
  {
    if run != [] {
      StepKeepsInv(l, s, run[0], valid);
      RunKeepsInv(l, valid, Apply(l, s, run[0], valid), run[1..], t);
    }
  }

  lemma ReachableInv(l: Limits, valid: string -> bool, run: seq<Step>, t: Stream)
    requires Reaches(l, valid, NewStream(), run, t)
    ensures Inv(l, t)
  {
    var s := NewStream();
    PayloadsNext([], Comment("connected"));
    assert [] + [Comment("connected")] == s.body;
    RunKeepsInv(l, valid, s, run, t);
  }
}
