/**
 What a stream has to do with a schedule of ready channels and arrivals, item by
 item: the plain account that the event loop is proved to follow.
 */
module SseSchedules {
  import opened Wrappers
  import opened SseFraming
  import opened SseBuffer

  /** What a round of the event loop can find: an arrival in between, or a ready channel. */
  datatype Ready = Arrival(data: string) | TerminalReady | MessageReady | DurationOver | Beat | Gone

  /** What is queued, the failure noted first, the frames written, what arrived, and how the stream ended. */
  datatype Account = Account(queued: seq<string>, failure: Option<Reason>, frames: seq<Frame>, arrivals: seq<string>,
                             end: Option<End>)

  function NothingYet(): Account {
    Account([], None, [Comment("connected")], [], None)
  }

  /** The length of all queued texts. */
  function Total(queued: seq<string>): nat {
    if queued == [] then 0 else |queued[0]| + Total(queued[1..])
  }

  function Note(w: Account, reason: Reason): Account {
    if w.failure.Some? then w else w.(failure := Some(reason))
  }

  /** A payload is queued if it is not too long and there is room for it; else a failure is noted. */
  function Arrived(l: Limits, w: Account, data: string): Account {
    var t := w.(arrivals := w.arrivals + [data]);
    if |data| > l.maxEventBytes then Note(t, InvalidPayload)
    else if Total(w.queued) + |data| > l.maxBytes || |w.queued| == l.capacity then Note(t, SlowConsumer)
    else t.(queued := w.queued + [data])
  }

  /** The first queued payload is written, or ends the stream if it is no text. */
  function Taken(valid: string -> bool, w: Account): Account
    requires w.queued != []
  {
    var data, t := w.queued[0], w.(queued := w.queued[1..]);
    if valid(data) then t.(frames := w.frames + [Data(data)]) else t.(end := Some(BadText(Message(data, |data|))))
  }

  /** One item; after its end a stream does nothing. */
  function Act(l: Limits, valid: string -> bool, w: Account, ready: Ready): Account {
    if w.end.Some? then w
    else
      match ready
      case Arrival(data) => Arrived(l, w, data)
      case MessageReady => if w.queued == [] then w else Taken(valid, w)
      case TerminalReady => if w.failure.None? then w else w.(end := Some(Reported(w.failure.value)))
      case DurationOver => w.(end := Some(TimedOut))
      case Beat => w.(frames := w.frames + [Comment("heartbeat")])
      case Gone => w.(end := Some(Silent))
  }

  /** The whole schedule. */
  function Follow(l: Limits, valid: string -> bool, schedule: seq<Ready>): Account {
    if schedule == [] then NothingYet()
    else Act(l, valid, Follow(l, valid, schedule[..|schedule| - 1]), schedule[|schedule| - 1])
  }

  lemma FollowNext(l: Limits, valid: string -> bool, schedule: seq<Ready>, i: nat)
    requires i < |schedule|
    ensures Follow(l, valid, schedule[..i + 1]) == Act(l, valid, Follow(l, valid, schedule[..i]), schedule[i])
  {
    assert schedule[..i + 1][..i] == schedule[..i];
  }

  // ----- the schedule decides -----------------------------------------------------------------

  /** The payloads that arrive in a schedule. */
  function ArrivalsOf(schedule: seq<Ready>): seq<string> {
    if schedule == [] then []
    else
      var last := schedule[|schedule| - 1];
      ArrivalsOf(schedule[..|schedule| - 1]) + if last.Arrival? then [last.data] else []
  }

  /** How often the heartbeat ticks. */
  function Beats(schedule: seq<Ready>): nat {
    if schedule == [] then 0
    else Beats(schedule[..|schedule| - 1]) + if schedule[|schedule| - 1].Beat? then 1 else 0
  }

  function Heartbeats(frames: seq<Frame>): nat {
    if frames == [] then 0
    else Heartbeats(frames[..|frames| - 1]) + if frames[|frames| - 1] == Comment("heartbeat") then 1 else 0
  }

  /** The item that ends a stream, given what led up to it. */
  predicate Stops(valid: string -> bool, w: Account, ready: Ready) {
    || ready.DurationOver? || ready.Gone?
    || (ready.TerminalReady? && w.failure.Some?)
    || (ready.MessageReady? && w.queued != [] && !valid(w.queued[0]))
  }

  predicate StopsAt(l: Limits, valid: string -> bool, schedule: seq<Ready>, i: nat) {
    i < |schedule| && Stops(valid, Follow(l, valid, schedule[..i]), schedule[i])
  }

  lemma NotStopped(l: Limits, valid: string -> bool, schedule: seq<Ready>, i: nat)
    requires i <= |schedule| && forall j: nat :: j < i ==> !StopsAt(l, valid, schedule, j)
    ensures forall j: nat :: j < i ==> !StopsAt(l, valid, schedule[..i], j)
  {
    forall j: nat | j < i ensures !StopsAt(l, valid, schedule[..i], j) {
      assert schedule[..i][..j] == schedule[..j] && !StopsAt(l, valid, schedule, j);
    }
  }

  lemma ActGoesOn(l: Limits, valid: string -> bool, w: Account, ready: Ready)
    requires w.end.None? && !Stops(valid, w, ready)
    ensures var t := Act(l, valid, w, ready);
            t.end.None? && t.arrivals == if ready.Arrival? then w.arrivals + [ready.data] else w.arrivals
  {
  }

  /** Until some item stops it, a stream takes in every arrival and writes every heartbeat. */
  lemma {:induction false} GoesOn(l: Limits, valid: string -> bool, schedule: seq<Ready>)
    requires forall i: nat :: i < |schedule| ==> !StopsAt(l, valid, schedule, i)
    ensures var w := Follow(l, valid, schedule);
            w.end == None && w.arrivals == ArrivalsOf(schedule) && Heartbeats(w.frames) == Beats(schedule)
  {
    if schedule != [] {
      var n := |schedule| - 1;
      var front := schedule[..n];
      NotStopped(l, valid, schedule, n);
      GoesOn(l, valid, front);
      assert !StopsAt(l, valid, schedule, n);
      ActGoesOn(l, valid, Follow(l, valid, front), schedule[n]);
      HeartbeatsNext(l, valid, Follow(l, valid, front), schedule[n]);
    }
  }

  lemma HeartbeatsNext(l: Limits, valid: string -> bool, w: Account, ready: Ready)
    requires w.end.None?
    ensures Heartbeats(Act(l, valid, w, ready).frames) == Heartbeats(w.frames) + if ready.Beat? then 1 else 0
  {
    var t := Act(l, valid, w, ready);
    if t.frames != w.frames { assert t.frames[..|t.frames| - 1] == w.frames; }
  }

  /** After its end nothing more happens. */
  lemma {:induction false} StaysEnded(l: Limits, valid: string -> bool, schedule: seq<Ready>, i: nat)
    requires i <= |schedule| && Follow(l, valid, schedule[..i]).end.Some?
    ensures Follow(l, valid, schedule) == Follow(l, valid, schedule[..i])
    decreases |schedule|
  {
    if i == |schedule| {
      assert schedule[..i] == schedule;
    } else {
      var front := schedule[..|schedule| - 1];
      assert front[..i] == schedule[..i];
      StaysEnded(l, valid, front, i);
    }
  }

  /** The end that an item brings. */
  function EndBy(w: Account, ready: Ready): End {
    match ready
    case TerminalReady => if w.failure.Some? then Reported(w.failure.value) else Silent
    case MessageReady => if w.queued != [] then BadText(Message(w.queued[0], |w.queued[0]|)) else Silent
    case DurationOver => TimedOut
    case _ => Silent
  }

  lemma ActEnds(l: Limits, valid: string -> bool, w: Account, ready: Ready)
    requires w.end.None? && Stops(valid, w, ready)
    ensures var t := Act(l, valid, w, ready);
            t.end == Some(EndBy(w, ready)) && t.frames == w.frames && t.arrivals == w.arrivals
  {
  }

  /**
   The first item that stops a stream decides how it ends; what it wrote and took
   in until then is all that it ever does.
   */
  lemma EndsAtFirst(l: Limits, valid: string -> bool, schedule: seq<Ready>, i: nat)
    requires StopsAt(l, valid, schedule, i) && forall j: nat :: j < i ==> !StopsAt(l, valid, schedule, j)
    ensures var w, before := Follow(l, valid, schedule), Follow(l, valid, schedule[..i]);
            && w.end == Some(EndBy(before, schedule[i])) && w.frames == before.frames
            && w.arrivals == ArrivalsOf(schedule[..i]) && Heartbeats(w.frames) == Beats(schedule[..i])
  {
    NotStopped(l, valid, schedule, i);
    GoesOn(l, valid, schedule[..i]);
    FollowNext(l, valid, schedule, i);
    ActEnds(l, valid, Follow(l, valid, schedule[..i]), schedule[i]);
    StaysEnded(l, valid, schedule, i + 1);
  }

  /** Each time a message is ready and one is queued, the oldest is written or stops the stream. */
  lemma MessageTaken(l: Limits, valid: string -> bool, schedule: seq<Ready>, i: nat)
    requires i < |schedule| && schedule[i] == MessageReady && Follow(l, valid, schedule[..i]).end.None?
    requires Follow(l, valid, schedule[..i]).queued != []
    ensures var w, t := Follow(l, valid, schedule[..i]), Follow(l, valid, schedule[..i + 1]);
            && t.queued == w.queued[1..]
            && if valid(w.queued[0]) then t.end.None? && Payloads(t.frames) == Payloads(w.frames) + [w.queued[0]]
               else t.end.Some? && t.frames == w.frames
  {
    var w := Follow(l, valid, schedule[..i]);
    FollowNext(l, valid, schedule, i);
    PayloadsNext(w.frames, Data(w.queued[0]));
  }

  // ----- the stream of the protocol -----------------------------------------------------------

  /** The stream is as the account says. */
  predicate Tells(s: Stream, w: Account) {
    && s.body == w.frames && s.arrivals == w.arrivals && Datas(s.queue) == w.queued
    && s.consumer == (if w.end.None? then Waiting else Ended(w.end.value))
    && (w.end.None? ==> s.terminal == w.failure)
  }

  lemma {:induction false} SizesTotal(l: Limits, queue: seq<Message>)
    requires forall i :: 0 <= i < |queue| ==> Sized(l, queue[i])
    ensures Sizes(queue) == Total(Datas(queue))
  {
    if queue != [] {
      SizesTotal(l, queue[1..]);
      assert Datas(queue)[1..] == Datas(queue[1..]);
    }
  }
}
