/** What every run of a stream guarantees. */
module SseTheorems {
  import opened Wrappers
  import opened SseFraming
  import opened SseBuffer

  const MAX_INT64: int := 0x7fff_ffff_ffff_ffff

  /** In every reachable state the byte count, with a message just sent, is exact and within the limit. */
  lemma BytesExact(l: Limits, valid: string -> bool, run: seq<Step>, s: Stream)
    requires Reaches(l, valid, NewStream(), run, s) && l.maxBytes >= 0
    ensures s.bytes + Uncounted(s.producer) == Sizes(s.queue) + Unreleased(s.consumer)
    ensures 0 <= s.bytes <= s.bytes + Uncounted(s.producer) <= l.maxBytes && |s.queue| <= l.capacity
  {
    ReachableInv(l, valid, run, s);
  }

  /** The send always finds room in the channel, and no received message is over the size limit. */
  lemma DeadBranches(l: Limits, valid: string -> bool, run: seq<Step>, s: Stream)
    requires Reaches(l, valid, NewStream(), run, s)
    ensures s.producer.Sending? ==> |s.queue| < l.capacity
    ensures s.consumer.Writing? ==> |s.consumer.message.data| <= l.maxEventBytes
  {
    ReachableInv(l, valid, run, s);
  }

  predicate Fits(n: int) {
    -MAX_INT64 - 1 <= n <= MAX_INT64
  }

  /** No sum or difference that the buffer computes leaves the 64-bit range. */
  lemma NoOverflow(l: Limits, valid: string -> bool, run: seq<Step>, s: Stream, data: string)
    requires Reaches(l, valid, NewStream(), run, s) && 0 <= l.maxBytes <= MAX_INT64 && |data| <= MAX_INT64
    ensures |data| <= l.maxBytes ==> Fits(l.maxBytes - |data|)
    ensures s.producer.Counting? ==> Fits(s.bytes + s.producer.message.size)
    ensures s.consumer.Holding? && s.producer.Idle? ==>
              Fits(s.bytes - s.consumer.message.size) && s.bytes >= s.consumer.message.size
  {
    ReachableInv(l, valid, run, s);
    SizesNonNegative(l, s.queue);
  }

  // ----- order and gaps -----------------------------------------------------------------------

  lemma {:induction false} AllPositions(admitted: seq<nat>, n: nat, i: nat)
    requires |admitted| == n && i < n
    requires forall k :: 0 <= k < n ==> admitted[k] < n
    requires forall j, k :: 0 <= j < k < n ==> admitted[j] < admitted[k]
    ensures i <= admitted[i] <= i
  {
    Above(admitted, i);
    Below(admitted, n, i);
  }

  lemma {:induction false} Above(admitted: seq<nat>, i: nat)
    requires i < |admitted| && forall j, k :: 0 <= j < k < |admitted| ==> admitted[j] < admitted[k]
    ensures i <= admitted[i]
  {
    if i > 0 { Above(admitted, i - 1); }
  }

  lemma {:induction false} Below(admitted: seq<nat>, n: nat, i: nat)
    requires |admitted| == n && i < n
    requires forall k :: 0 <= k < n ==> admitted[k] < n
    requires forall j, k :: 0 <= j < k < n ==> admitted[j] < admitted[k]
    ensures admitted[i] <= i
    decreases n - i
  {
    if i + 1 < n { Below(admitted, n, i + 1); }
  }

  /** What was delivered stands first in the pipeline. */
  lemma DeliveredFirst(s: Stream)
    ensures Payloads(s.body) <= Pipeline(s)
  {
  }

  /** Delivered messages are arrivals, in the order of arrival and none twice. */
  lemma DeliveredInOrder(l: Limits, valid: string -> bool, run: seq<Step>, s: Stream)
    requires Reaches(l, valid, NewStream(), run, s)
    ensures |Payloads(s.body)| <= |s.admitted|
    ensures InOrder(Payloads(s.body), s.arrivals, s.admitted[..|Payloads(s.body)|])
  {
    ReachableInv(l, valid, run, s);
    DeliveredFirst(s);
  }

  /** While no failure was signalled, delivered and pending messages together are all arrivals. */
  lemma NoFailureNoGap(l: Limits, valid: string -> bool, run: seq<Step>, s: Stream)
    requires Reaches(l, valid, NewStream(), run, s) && s.failures == []
    ensures Pipeline(s) == s.arrivals
  {
    ReachableInv(l, valid, run, s);
    var n := |s.arrivals|;
    forall i | 0 <= i < n ensures Pipeline(s)[i] == s.arrivals[i] { AllPositions(s.admitted, n, i); }
  }

  /** A dropped arrival always leaves a signal: the first failure's reason is in the slot or was reported. */
  lemma DropSignalled(l: Limits, valid: string -> bool, run: seq<Step>, s: Stream)
    requires Reaches(l, valid, NewStream(), run, s) && |s.admitted| < |s.arrivals|
    ensures s.failures != []
    ensures s.terminal == Some(s.failures[0]) || s.consumer == Ended(Reported(s.failures[0]))
  {
    ReachableInv(l, valid, run, s);
  }

  /** An error event taken from the slot names the first failure, and something was dropped. */
  lemma ReportedIsFirst(l: Limits, valid: string -> bool, run: seq<Step>, s: Stream)
    requires Reaches(l, valid, NewStream(), run, s) && s.consumer.Ended? && s.consumer.end.Reported?
    ensures s.failures != [] && s.consumer.end.reason == s.failures[0] && |s.admitted| < |s.arrivals|
  {
    ReachableInv(l, valid, run, s);
  }

  /**
   Whether every arrival at a waiting stream was admitted, so that it is delivered
   or still on its way: exactly when the terminal slot is empty.
   */
  lemma EndsWithoutLossIff(l: Limits, valid: string -> bool, run: seq<Step>, s: Stream)
    requires Reaches(l, valid, NewStream(), run, s) && s.consumer.Waiting?
    ensures Pipeline(s) == s.arrivals <==> s.terminal.None?
  {
    ReachableInv(l, valid, run, s);
    if s.terminal.None? { NoFailureNoGap(l, valid, run, s); }
  }

  /**
   Whether a waiting stream that ends now, by its deadline or silently, has delivered
   everything: exactly when the terminal slot and the channel are empty and no
   message is about to be sent.
   */
  lemma AllDeliveredIff(l: Limits, valid: string -> bool, run: seq<Step>, s: Stream)
    requires Reaches(l, valid, NewStream(), run, s) && s.consumer.Waiting?
    ensures Payloads(s.body) == s.arrivals <==> s.terminal.None? && s.queue == [] && !s.producer.Sending?
  {
    ReachableInv(l, valid, run, s);
    EndsWithoutLossIff(l, valid, run, s);
    assert |Pipeline(s)| == |Payloads(s.body)| + |s.queue| + |InFlight(s.producer)|;
    if s.queue == [] && !s.producer.Sending? { assert Pipeline(s) == Payloads(s.body); }
  }

  lemma {:induction false} ReachesNext(l: Limits, valid: string -> bool, s: Stream, run: seq<Step>, t: Stream,
                                       step: Step)
    requires Reaches(l, valid, s, run, t) && Enabled(t, step)
    ensures Reaches(l, valid, s, run + [step], Apply(l, t, step, valid))
    decreases |run|
  {
    if run == [] {
      assert [] + [step] == [step] && [step][1..] == [];
    } else {
      assert (run + [step])[1..] == run[1..] + [step];
      ReachesNext(l, valid, Apply(l, s, run[0], valid), run[1..], t, step);
    }
  }

  /** A whole `enqueue` that is admitted. */
  lemma Offered(l: Limits, valid: string -> bool, run: seq<Step>, s: Stream, data: string)
    returns (run': seq<Step>, t: Stream)
    requires Reaches(l, valid, NewStream(), run, s) && s.producer.Idle? && |s.queue| < l.capacity
    requires |data| <= l.maxEventBytes && |data| <= l.maxBytes && s.bytes <= l.maxBytes - |data|
    ensures Reaches(l, valid, NewStream(), run', t)
    ensures t == s.(queue := s.queue + [Message(data, |data|)], bytes := s.bytes + |data|,
                    arrivals := s.arrivals + [data], admitted := s.admitted + [|s.arrivals|])
  {
    var sending := ArriveStep(l, s, data);
    var counting := SendStep(l, sending);
    ReachesNext(l, valid, NewStream(), run, s, Arrive(data));
    ReachesNext(l, valid, NewStream(), run + [Arrive(data)], sending, Send);
    ReachesNext(l, valid, NewStream(), run + [Arrive(data)] + [Send], counting, Count);
    run', t := run + [Arrive(data)] + [Send] + [Count], CountStep(counting);
  }

  /** An arrival that finds the channel full. */
  lemma Dropped(l: Limits, valid: string -> bool, run: seq<Step>, s: Stream, data: string)
    returns (run': seq<Step>, t: Stream)
    requires Reaches(l, valid, NewStream(), run, s) && s.producer.Idle? && |s.queue| == l.capacity
    requires |data| <= l.maxEventBytes
    ensures Reaches(l, valid, NewStream(), run', t) && t == Fail(s.(arrivals := s.arrivals + [data]), SlowConsumer)
  {
    ReachesNext(l, valid, NewStream(), run, s, Arrive(data));
    run', t := run + [Arrive(data)], ArriveStep(l, s, data);
  }

  /** A queued message is received, released and written. */
  lemma Delivered(l: Limits, valid: string -> bool, run: seq<Step>, s: Stream) returns (run': seq<Step>, t: Stream)
    requires Reaches(l, valid, NewStream(), run, s) && s.producer.Idle? && s.consumer.Waiting? && s.queue != []
    requires |s.queue[0].data| <= l.maxEventBytes && valid(s.queue[0].data)
    ensures Reaches(l, valid, NewStream(), run', t)
    ensures t == s.(queue := s.queue[1..], bytes := s.bytes - s.queue[0].size, body := s.body + [Data(s.queue[0].data)])
  {
    var holding := Apply(l, s, Receive, valid);
    var writing := Apply(l, holding, Release, valid);
    ReachesNext(l, valid, NewStream(), run, s, Receive);
    ReachesNext(l, valid, NewStream(), run + [Receive], holding, Release);
    ReachesNext(l, valid, NewStream(), run + [Receive] + [Release], writing, Write);
    run', t := run + [Receive] + [Release] + [Write], WriteStep(l, writing, valid);
  }

  /** What the stream of the example has written. */
  lemma TwoPayloads(body: seq<Frame>, a: string, c: string)
    requires body == [Comment("connected")] + [Data(a)] + [Data(c)]
    ensures Payloads(body) == [a, c]
  {
    PayloadsNext([], Comment("connected"));
    assert [] + [Comment("connected")] == [Comment("connected")];
    PayloadsNext([Comment("connected")], Data(a));
    PayloadsNext([Comment("connected")] + [Data(a)], Data(c));
  }

  /**
   A loss can go unreported.  With room for one message, any three payloads can fare
   like this: the second arrives while the first is queued and is dropped, the other
   two are delivered, and the deadline comes before the failure is noticed.
   */
  lemma UnreportedLoss(l: Limits, valid: string -> bool, a: string, b: string, c: string)
    returns (run: seq<Step>, s: Stream)
    requires l.capacity == 1 && valid(a) && valid(c) && |b| <= l.maxEventBytes
    requires |a| <= l.maxEventBytes && |a| <= l.maxBytes && |c| <= l.maxEventBytes && |c| <= l.maxBytes
    ensures Reaches(l, valid, NewStream(), run, s)
    ensures Payloads(s.body) == [a, c] && s.arrivals == [a, b, c] && s.consumer == Ended(TimedOut)
  {
    run, s := [], NewStream();
    run, s := Offered(l, valid, run, s, a);
    run, s := Dropped(l, valid, run, s, b);
    run, s := Delivered(l, valid, run, s);
    run, s := Offered(l, valid, run, s, c);
    run, s := Delivered(l, valid, run, s);
    ReachesNext(l, valid, NewStream(), run, s, TimeOut);
    run, s := run + [TimeOut], Apply(l, s, TimeOut, valid);
    TwoPayloads(s.body, a, c);
  }

  // ----- the transcript -----------------------------------------------------------------------

  function ReasonText(reason: Reason): string {
    match reason case SlowConsumer => "slow consumer" case InvalidPayload => "invalid event payload"
  }

  /** The control event of a stream that ended with one. */
  function ControlOf(c: Consumer): seq<Event> {
    match c
    case Ended(Reported(reason)) => [Event("error", ReasonText(reason))]
    case Ended(BadText(_)) => [Event("error", "invalid event payload")]
    case Ended(TimedOut) => [Event("close", "maximum duration reached")]
    case _ => []
  }

  function ControlFrames(c: Consumer): seq<Frame> {
    if ControlOf(c) == [] then [] else [Control(ControlOf(c)[0].kind, ControlOf(c)[0].data)]
  }

  /** Everything a stream has written. */
  function Transcript(s: Stream): string {
    StreamText(s.body + ControlFrames(s.consumer))
  }

  predicate PlainBody(body: seq<Frame>) {
    forall i :: 0 <= i < |body| ==> body[i].Data? || (body[i].Comment? && NoEol(body[i].text))
  }

  lemma {:induction false} BodyPlain(l: Limits, valid: string -> bool, s: Stream, run: seq<Step>, t: Stream)
    requires PlainBody(s.body) && Reaches(l, valid, s, run, t)
    ensures PlainBody(t.body)
    decreases |run|
  {
    if run != [] { BodyPlain(l, valid, Apply(l, s, run[0], valid), run[1..], t); }
  }

  /** What the body of a transcript decodes to when its payloads have no inner carriage return. */
  function Messages(payloads: seq<string>): (events: seq<Event>)
    ensures |events| == |payloads| && forall i :: 0 <= i < |events| ==>
              events[i] == Event("message", WithoutCr(payloads[i]))
  {
    seq(|payloads|, i requires 0 <= i < |payloads| => Event("message", WithoutCr(payloads[i])))
  }

  /** The payloads as they can come back at best. */
  function CanonicalMessages(payloads: seq<string>): (events: seq<Event>)
    ensures |events| == |payloads| && forall i :: 0 <= i < |events| ==>
              events[i] == Event("message", Canonical(payloads[i]))
  {
    seq(|payloads|, i requires 0 <= i < |payloads| => Event("message", Canonical(payloads[i])))
  }

  lemma CanonicalIsWithoutCr(payloads: seq<string>)
    requires AllAtLineEnds(payloads)
    ensures CanonicalMessages(payloads) == Messages(payloads)
  {
    forall i | 0 <= i < |payloads| ensures Canonical(payloads[i]) == WithoutCr(payloads[i]) {
      DataRoundTrip(payloads[i]);
    }
  }

  /** No text at all decodes to an event with a carriage return, so canonical payloads that came back have none. */
  lemma CameBack(text: string, payloads: seq<string>, rest: seq<Event>)
    requires Decode(text) == CanonicalMessages(payloads) + rest
    ensures AllAtLineEnds(payloads)
  {
    LinesNoEol(text);
    ProcessNoCr(Lines(text), Buffers("", ""));
    forall i | 0 <= i < |payloads| ensures CrAtLineEnds(payloads[i], 0) {
      assert Decode(text)[i] == Event("message", Canonical(payloads[i]));
      DataDecodesIff(payloads[i]);
      DataRoundTrip(payloads[i]);
    }
  }

  predicate AllAtLineEnds(payloads: seq<string>) {
    forall i :: 0 <= i < |payloads| ==> CrAtLineEnds(payloads[i], 0)
  }

  lemma {:induction false} StreamTextAppend(a: seq<Frame>, f: Frame)
    ensures StreamText(a + [f]) == StreamText(a) + FrameText(f)
  {
    if a == [] {
      assert a + [f] == [f] && [f][1..] == [] && FrameText(f) + "" == FrameText(f);
    } else {
      assert (a + [f])[1..] == a[1..] + [f] && (a + [f])[0] == a[0];
      StreamTextAppend(a[1..], f);
      Associative(FrameText(a[0]), StreamText(a[1..]), FrameText(f));
    }
  }

  lemma {:induction false} StreamTextEnds(a: seq<Frame>)
    ensures StreamText(a) == "" || StreamText(a)[|StreamText(a)| - 1] == '\n'
  {
    if a != [] {
      var body := FrameBody(a[0]);
      StreamTextEnds(a[1..]);
    }
  }

  /** One more frame adds what it decodes to on its own. */
  lemma DecodeNext(a: seq<Frame>, f: Frame)
    ensures Decode(StreamText(a + [f])) == Decode(StreamText(a)) + Decode(FrameText(f))
  {
    StreamTextAppend(a, f);
    if a == [] {
      assert StreamText(a) + FrameText(f) == FrameText(f) && Lines("") == [];
    } else {
      StreamBody(a, FrameText(f));
    }
  }

  lemma StreamBody(a: seq<Frame>, b: string)
    requires a != []
    ensures Decode(StreamText(a) + b) == Decode(StreamText(a)) + Decode(b)
  {
    var n := |a| - 1;
    assert a[..n] + [a[n]] == a;
    StreamTextAppend(a[..n], a[n]);
    StreamTextEnds(a[..n]);
    var last := FrameBody(a[n]);
    var front := StreamText(a[..n]) + last;
    assert StreamText(a) == front + "\n" by { Associative(StreamText(a[..n]), last, "\n"); }
    DecodeAppend(front, b);
  }

  lemma {:induction false} BodyDecodes(body: seq<Frame>)
    requires PlainBody(body) && AllAtLineEnds(Payloads(body))
    ensures Decode(StreamText(body)) == Messages(Payloads(body))
    decreases |body|
  {
    if body == [] {
      assert Lines("") == [];
    } else {
      var n := |body| - 1;
      var front, f := body[..n], body[n];
      assert front + [f] == body;
      PayloadsNext(front, f);
      assert forall i :: 0 <= i < |Payloads(front)| ==> Payloads(body)[i] == Payloads(front)[i];
      BodyDecodes(front);
      DecodeNext(front, f);
      if f.Data? {
        assert Payloads(body)[|Payloads(front)|] == f.payload;
        DataRoundTrip(f.payload);
        assert Messages(Payloads(body)) == Messages(Payloads(front)) + [Event("message", WithoutCr(f.payload))];
      } else {
        CommentDecodes(f.text);
      }
    }
  }

  lemma PlainTexts()
    ensures NoEol("error") && NoEol("close")
  {
  }

  lemma PlainDuration()
    ensures NoEol("maximum duration reached")
  {
  }

  lemma PlainReason(reason: Reason)
    ensures NoEol(ReasonText(reason))
  {
  }

  lemma ControlPlain(c: Consumer, e: Event)
    requires ControlOf(c) == [e]
    ensures NoEol(e.kind) && NoEol(e.data) && e.kind != ""
  {
    PlainTexts();
    PlainDuration();
    PlainReason(InvalidPayload);
    if c.Ended? && c.end.Reported? { PlainReason(c.end.reason); }
  }

  lemma EndDecodes(body: seq<Frame>, c: Consumer)
    ensures Decode(StreamText(body + ControlFrames(c))) == Decode(StreamText(body)) + ControlOf(c)
  {
    if ControlOf(c) == [] {
      assert body + [] == body;
    } else {
      var e := ControlOf(c)[0];
      assert ControlOf(c) == [e];
      ControlPlain(c, e);
      DecodeNext(body, Control(e.kind, e.data));
      ControlDecodes(e.kind, e.data);
    }
  }

  /**
   The transcript of any run decodes to exactly the delivered payloads in order, in
   their canonical text, and then the control event, if and only if the payloads
   hold carriage returns at line ends only; their canonical text is then the
   payload without those carriage returns.
   */
  lemma TranscriptDecodes(l: Limits, valid: string -> bool, run: seq<Step>, s: Stream)
    requires Reaches(l, valid, NewStream(), run, s)
    ensures Decode(Transcript(s)) == CanonicalMessages(Payloads(s.body)) + ControlOf(s.consumer)
            <==> AllAtLineEnds(Payloads(s.body))
    ensures AllAtLineEnds(Payloads(s.body)) ==>
              Decode(Transcript(s)) == Messages(Payloads(s.body)) + ControlOf(s.consumer)
  {
    if AllAtLineEnds(Payloads(s.body)) {
      BodyPlain(l, valid, NewStream(), run, s);
      BodyDecodes(s.body);
      EndDecodes(s.body, s.consumer);
      CanonicalIsWithoutCr(Payloads(s.body));
    }
    if Decode(Transcript(s)) == CanonicalMessages(Payloads(s.body)) + ControlOf(s.consumer) {
      CameBack(Transcript(s), Payloads(s.body), ControlOf(s.consumer));
    }
  }
}
