/** The event log of an agent run and the streams that follow it.

    A stream is a generator: it runs from one suspension point (a `yield` or an `await`) to
    the next without interruption, and between two resumptions other tasks may append events,
    change the status, or open and drop other streams. */
module EventStream {
  import opened Wrappers

  datatype Status = Idle | Running | WaitingTool | WaitingUser | WaitingApproval | Completed | Failed | Cancelled

  predicate Terminal(s: Status) { s in {Completed, Failed, Cancelled, Idle} }

  predicate Active(s: Status) { s in {Running, WaitingTool, WaitingUser, WaitingApproval} }

  datatype Event = Event(kind: string, payload: string, number: nat)

  /** The number of an event is its place in the log. */
  predicate Numbered(log: seq<Event>) { forall i | 0 <= i < |log| :: log[i].number == i }

  function Appended(log: seq<Event>, kind: string, payload: string): seq<Event> {
    log + [Event(kind, payload, |log|)]
  }

  /** A slice from `cursor` on, as Python slices: empty past the end, everything below zero. */
  function PullSince(log: seq<Event>, cursor: int): seq<Event> {
    if cursor <= 0 then log else if cursor <= |log| then log[cursor..] else []
  }

  // ---- One stream ----

  datatype Frame =
    | EventFrame(event: Event, cursor: nat)
    | StatusFrame(status: Status, cursor: nat)
    | EndFrame(status: Status, cursor: nat)

  /** Where a generator is suspended. `Awaiting` holds a registered waiter and its flag. */
  datatype Point =
    | Fresh
    | Sending(rest: seq<Event>)
    | SentStatus(status: Status)
    | Awaiting(woken: bool)
    | SentEnd
    | Finished

  datatype Stream = Stream(start: nat, cur: nat, lastStatus: Option<Status>, at: Point, sent: seq<Frame>)

  function Opened(cursor: nat): Stream { Stream(cursor, cursor, None, Fresh, []) }

  /** The body of `for ev in batch`, up to its yield. */
  function SendFirst(s: Stream, batch: seq<Event>): Stream
    requires batch != []
  {
    var next := batch[0].number + 1;
    s.(cur := next, at := Sending(batch[1..]), sent := s.sent + [EventFrame(batch[0], next)])
  }

  /** After the batch: report a changed status, or look whether the run is over. */
  function CheckStatus(s: Stream, log: seq<Event>, status: Status): Stream {
    if s.lastStatus != Some(status) then
      s.(lastStatus := Some(status), at := SentStatus(status), sent := s.sent + [StatusFrame(status, s.cur)])
    else CheckEnd(s, log, status, status)
  }

  /** `status` is what was read before a yield, `now` what the run says at this moment. */
  function CheckEnd(s: Stream, log: seq<Event>, status: Status, now: Status): Stream {
    if Terminal(now) then s.(at := SentEnd, sent := s.sent + [EndFrame(status, s.cur)])
    else WaitForNews(s, log)
  }

  /** `wait_for_new_events`: go straight on when there is news, else register and suspend. */
  function WaitForNews(s: Stream, log: seq<Event>): Stream {
    if |log| > s.cur then SendFirst(s, PullSince(log, s.cur)) else s.(at := Awaiting(false))
  }

  function NextRound(s: Stream, log: seq<Event>, status: Status): Stream {
    var batch := PullSince(log, s.cur);
    if batch != [] then SendFirst(s, batch) else CheckStatus(s, log, status)
  }

  /** From one suspension point to the next. An await ends by its waiter or by its timeout. */
  function Resumed(s: Stream, log: seq<Event>, status: Status): Stream {
    match s.at
    case Fresh => NextRound(s, log, status)
    case Sending(rest) => if rest != [] then SendFirst(s, rest) else CheckStatus(s, log, status)
    case SentStatus(read) => CheckEnd(s, log, read, status)
    case Awaiting(_) => NextRound(s, log, status)
    case SentEnd => s.(at := Finished)
    case Finished => s
  }

  /** The events a reader of the frames has seen. */
  function Delivered(sent: seq<Frame>): seq<Event> {
    if sent == [] then []
    else Delivered(sent[..|sent| - 1]) +
         (if sent[|sent| - 1].EventFrame? then [sent[|sent| - 1].event] else [])
  }

  // ---- A run with any number of streams ----

  datatype World = World(log: seq<Event>, status: Status, streams: map<nat, Stream>)

  datatype Act =
    | Append(kind: string, payload: string)
    | SetStatus(status: Status)
    | Open(id: nat, cursor: nat)
    | Drop(id: nat)
    | Resume(id: nat)

  /** `append_event` sets every registered waiter. */
  function Woken(s: Stream): Stream { if s.at.Awaiting? then s.(at := Awaiting(true)) else s }

  function Perform(w: World, a: Act): World {
    match a
    case Append(kind, payload) =>
      World(Appended(w.log, kind, payload), w.status, map id | id in w.streams :: Woken(w.streams[id]))
    case SetStatus(status) => w.(status := status)
    case Open(id, cursor) => if id in w.streams then w else w.(streams := w.streams[id := Opened(cursor)])
    case Drop(id) => w.(streams := w.streams - {id})
    case Resume(id) =>
      if id in w.streams then w.(streams := w.streams[id := Resumed(w.streams[id], w.log, w.status)]) else w
  }

  function RunAll(w: World, acts: seq<Act>): World
    decreases |acts|
  {
    if acts == [] then w else RunAll(Perform(w, acts[0]), acts[1..])
  }

  // ---- What holds in every reachable state ----

  /** What was delivered is the part of the log between the start and the cursor. */
  predicate Lossless(s: Stream, log: seq<Event>) {
    if s.start <= |log| then s.start <= s.cur <= |log| && Delivered(s.sent) == log[s.start..s.cur]
    else s.cur == s.start && Delivered(s.sent) == []
  }

  predicate EndsAt(sent: seq<Frame>, cursor: nat) {
    sent != [] && sent[|sent| - 1].EndFrame? && sent[|sent| - 1].cursor == cursor
  }

  /** A batch being sent is what follows in the log; a waiter that is not set has seen it all. */
  predicate InStep(s: Stream, log: seq<Event>) {
    match s.at
    case Sending(rest) => s.cur <= |log| && rest <= log[s.cur..]
    case Awaiting(woken) => woken || |log| <= s.cur
    case SentEnd => EndsAt(s.sent, s.cur)
    case Finished => EndsAt(s.sent, s.cur)
    case _ => true
  }

  predicate Sound(s: Stream, log: seq<Event>) { Lossless(s, log) && InStep(s, log) }

  predicate Reachable(w: World) {
    Numbered(w.log) && forall id | id in w.streams :: Sound(w.streams[id], w.log)
  }

  lemma DeliveredSnoc(sent: seq<Frame>, f: Frame)
    ensures Delivered(sent + [f]) == Delivered(sent) + (if f.EventFrame? then [f.event] else [])
  {
    assert (sent + [f])[..|sent|] == sent;
  }

  lemma AppendKeepsSound(s: Stream, log: seq<Event>, kind: string, payload: string)
    requires Sound(s, log) && Numbered(log)
    ensures Sound(Woken(s), Appended(log, kind, payload))
  {
  }

  /** The first event of a batch is the next one of the log, and the rest follows it. */
  lemma BatchIsNext(cur: nat, batch: seq<Event>, log: seq<Event>)
    requires Numbered(log) && batch != [] && cur < |log| && batch <= log[cur..]
    ensures batch[0] == log[cur] && batch[0].number == cur
    ensures batch[1..] <= log[cur + 1..]
  {
    assert log[cur..][1..] == log[cur + 1..];
  }

  lemma OneMoreOfSlice(log: seq<Event>, start: nat, cur: nat)
    requires start <= cur < |log|
    ensures log[start..cur + 1] == log[start..cur] + [log[cur]]
  {
  }

  lemma SendIsLossless(s: Stream, batch: seq<Event>, log: seq<Event>)
    requires Lossless(s, log) && batch != [] && s.cur < |log| && batch[0] == log[s.cur] && batch[0].number == s.cur
    ensures Lossless(SendFirst(s, batch), log)
  {
    DeliveredSnoc(s.sent, EventFrame(batch[0], batch[0].number + 1));
    OneMoreOfSlice(log, s.start, s.cur);
  }

  lemma SendKeepsSound(s: Stream, batch: seq<Event>, log: seq<Event>)
    requires Lossless(s, log) && Numbered(log) && batch != [] && s.cur < |log| && batch <= log[s.cur..]
    ensures Sound(SendFirst(s, batch), log)
  {
    BatchIsNext(s.cur, batch, log);
    SendIsLossless(s, batch, log);
  }

  lemma WaitKeepsSound(s: Stream, log: seq<Event>)
    requires Lossless(s, log) && Numbered(log)
    ensures Sound(WaitForNews(s, log), log)
  {
    if |log| > s.cur {
      SendKeepsSound(s, PullSince(log, s.cur), log);
    }
  }

  lemma EndKeepsSound(s: Stream, log: seq<Event>, status: Status, now: Status)
    requires Lossless(s, log) && Numbered(log)
    ensures Sound(CheckEnd(s, log, status, now), log)
  {
    DeliveredSnoc(s.sent, EndFrame(status, s.cur));
    WaitKeepsSound(s, log);
  }

  lemma StatusKeepsSound(s: Stream, log: seq<Event>, status: Status)
    requires Lossless(s, log) && Numbered(log)
    ensures Sound(CheckStatus(s, log, status), log)
  {
    DeliveredSnoc(s.sent, StatusFrame(status, s.cur));
    EndKeepsSound(s, log, status, status);
  }

  lemma ResumeKeepsSound(s: Stream, log: seq<Event>, status: Status)
    requires Sound(s, log) && Numbered(log)
    ensures Sound(Resumed(s, log, status), log)
  {
    match s.at {
      case Sending(rest) => if rest != [] { SendKeepsSound(s, rest, log); } else { StatusKeepsSound(s, log, status); }
      case SentStatus(read) => EndKeepsSound(s, log, read, status);
      case SentEnd =>
      case Finished =>
      case _ =>
        if PullSince(log, s.cur) != [] { SendKeepsSound(s, PullSince(log, s.cur), log); }
        else { StatusKeepsSound(s, log, status); }
    }
  }

  lemma PerformKeepsReachable(w: World, a: Act)
    requires Reachable(w)
    ensures Reachable(Perform(w, a))
  {
    forall id | id in Perform(w, a).streams ensures Sound(Perform(w, a).streams[id], Perform(w, a).log) {
      match a {
        case Append(kind, payload) => AppendKeepsSound(w.streams[id], w.log, kind, payload);
        case Resume(r) => if id == r { ResumeKeepsSound(w.streams[id], w.log, w.status); }
        case _ =>
      }
    }
  }

  lemma {:induction false} EveryRunIsReachable(w: World, acts: seq<Act>)
    requires Reachable(w)
    ensures Reachable(RunAll(w, acts))
    decreases |acts|
  {
    if acts != [] {
      PerformKeepsReachable(w, acts[0]);
      EveryRunIsReachable(Perform(w, acts[0]), acts[1..]);
    }
  }

  predicate Initial(w: World) { Numbered(w.log) && w.streams == map[] }

  /** Whatever the interleaving, a stream opened at a cursor within the log has delivered
      exactly the events from its start to its cursor, in order and once each, and a pull from
      that cursor brings the rest; the cursor is the one in its end frame once it has ended. */
  lemma StreamIsLossless(w: World, acts: seq<Act>, id: nat)
    requires Initial(w) && id in RunAll(w, acts).streams
    ensures var s, log := RunAll(w, acts).streams[id], RunAll(w, acts).log;
            && Delivered(s.sent) + PullSince(log, s.cur) == PullSince(log, s.start)
            && (s.start <= |log| ==> s.start <= s.cur <= |log| && Delivered(s.sent) == log[s.start..s.cur])
            && (s.at.SentEnd? || s.at.Finished? ==> EndsAt(s.sent, s.cur))
  {
    EveryRunIsReachable(w, acts);
    var s, log := RunAll(w, acts).streams[id], RunAll(w, acts).log;
    SoundIsConserving(s, log);
  }

  lemma SoundIsConserving(s: Stream, log: seq<Event>)
    requires Sound(s, log)
    ensures Delivered(s.sent) + PullSince(log, s.cur) == PullSince(log, s.start)
  {
    if s.start <= |log| {
      assert log[s.start..] == log[s.start..s.cur] + log[s.cur..];
    }
  }

  /** No lost wake-ups: a stream that is suspended on a waiter that is not set has nothing
      left to deliver. */
  lemma NoLostWakeUps(w: World, acts: seq<Act>, id: nat)
    requires Initial(w) && id in RunAll(w, acts).streams
    requires RunAll(w, acts).streams[id].at == Awaiting(false)
    ensures |RunAll(w, acts).log| <= RunAll(w, acts).streams[id].cur
    ensures PullSince(RunAll(w, acts).log, RunAll(w, acts).streams[id].cur) == []
  {
    EveryRunIsReachable(w, acts);
    assert Sound(RunAll(w, acts).streams[id], RunAll(w, acts).log);
  }

  // ---- A stream of a finished run comes to its end ----

  function ResumedTimes(s: Stream, log: seq<Event>, status: Status, n: nat): Stream
    decreases n
  {
    if n == 0 then s else ResumedTimes(Resumed(s, log, status), log, status, n - 1)
  }

  /** How many resumptions a stream needs at most once the run is over. */
  function ResumesLeft(s: Stream, log: seq<Event>): nat {
    match s.at
    case Finished => 0
    case SentEnd => 1
    case SentStatus(_) => 2
    case Sending(rest) => |rest| + 3
    case _ => |PullSince(log, s.cur)| + 4
  }

  /** The stream has pulled, or is yet to pull, everything in the log. */
  predicate UpToDate(s: Stream, log: seq<Event>) {
    match s.at
    case Fresh => true
    case Awaiting(_) => true
    case Sending(rest) => rest == PullSince(log, s.cur)
    case _ => PullSince(log, s.cur) == []
  }

  lemma PullShrinks(log: seq<Event>, cur: nat)
    requires Numbered(log) && cur < |log|
    ensures var batch := PullSince(log, cur);
            batch == log[cur..] && batch[0].number == cur && PullSince(log, cur + 1) == batch[1..]
  {
    assert log[cur..][1..] == log[cur + 1..];
  }

  lemma SameTail(a: seq<Event>, b: seq<Event>)
    requires a != [] && b != [] && a[0] == b[0]
    ensures a == b <==> a[1..] == b[1..]
  {
    assert a == [a[0]] + a[1..] && b == [b[0]] + b[1..];
  }

  lemma QuietSend(s: Stream, log: seq<Event>, status: Status)
    requires Sound(s, log) && Numbered(log) && Terminal(status) && s.at.Sending?
    ensures ResumesLeft(Resumed(s, log, status), log) < ResumesLeft(s, log)
    ensures UpToDate(Resumed(s, log, status), log) <==> UpToDate(s, log)
  {
    if s.at.rest != [] {
      PullShrinks(log, s.cur);
      SameTail(s.at.rest, PullSince(log, s.cur));
    }
  }

  lemma QuietRound(s: Stream, log: seq<Event>, status: Status)
    requires Sound(s, log) && Numbered(log) && Terminal(status) && (s.at.Fresh? || s.at.Awaiting?)
    ensures ResumesLeft(NextRound(s, log, status), log) < ResumesLeft(s, log)
    ensures UpToDate(NextRound(s, log, status), log)
  {
    if s.cur < |log| { PullShrinks(log, s.cur); }
  }

  lemma QuietEnd(s: Stream, log: seq<Event>, status: Status)
    requires Terminal(status) && (s.at.SentStatus? || s.at.SentEnd?)
    ensures ResumesLeft(Resumed(s, log, status), log) < ResumesLeft(s, log)
    ensures UpToDate(Resumed(s, log, status), log) <==> UpToDate(s, log)
  {
  }

  lemma QuietResume(s: Stream, log: seq<Event>, status: Status)
    requires Sound(s, log) && Numbered(log) && Terminal(status) && !s.at.Finished?
    ensures ResumesLeft(Resumed(s, log, status), log) < ResumesLeft(s, log)
    ensures UpToDate(Resumed(s, log, status), log) <==> UpToDate(s, log)
  {
    match s.at {
      case Sending(_) => QuietSend(s, log, status);
      case SentStatus(_) => QuietEnd(s, log, status);
      case SentEnd => QuietEnd(s, log, status);
      case _ => QuietRound(s, log, status);
    }
  }

  /** Once the status is terminal and no more events come, a stream ends after a bounded number
      of resumptions. It has then delivered the whole log exactly when it was up to date: a
      batch it was still sending, or a status frame, is followed by no further pull. */
  lemma {:induction false} QuietStreamFinishes(s: Stream, log: seq<Event>, status: Status, n: nat)
    requires Sound(s, log) && Numbered(log) && Terminal(status) && n >= ResumesLeft(s, log)
    ensures var end := ResumedTimes(s, log, status, n);
            && Sound(end, log) && end.at == Finished
            && (Delivered(end.sent) == PullSince(log, end.start) <==> UpToDate(s, log))
    decreases n
  {
    if s.at.Finished? {
      FinishedStays(s, log, status, n);
      SoundIsConserving(s, log);
      assert |Delivered(s.sent) + PullSince(log, s.cur)| == |Delivered(s.sent)| + |PullSince(log, s.cur)|;
    } else {
      ResumeKeepsSound(s, log, status);
      QuietResume(s, log, status);
      QuietStreamFinishes(Resumed(s, log, status), log, status, n - 1);
    }
  }

  lemma {:induction false} FinishedStays(s: Stream, log: seq<Event>, status: Status, n: nat)
    requires s.at == Finished
    ensures ResumedTimes(s, log, status, n) == s
  {
    if n > 0 { FinishedStays(s, log, status, n - 1); }
  }

  // ---- The same for the streams of a run of the world ----

  function Resumes(id: nat, n: nat): seq<Act> { if n == 0 then [] else [Resume(id)] + Resumes(id, n - 1) }

  lemma {:induction false} ResumesRun(w: World, id: nat, n: nat)
    requires id in w.streams
    ensures RunAll(w, Resumes(id, n)) == w.(streams := w.streams[id := ResumedTimes(w.streams[id], w.log, w.status, n)])
    decreases n
  {
    if n == 0 {
      assert w.streams[id := w.streams[id]] == w.streams;
    } else {
      var next := Perform(w, Resume(id));
      assert ([Resume(id)] + Resumes(id, n - 1))[1..] == Resumes(id, n - 1);
      ResumesRun(next, id, n - 1);
    }
  }

  /** In every reachable state of a run that is over, a stream that is resumed often enough
      ends, with the whole log delivered exactly when it was up to date. */
  lemma EveryQuietStreamFinishes(w: World, acts: seq<Act>, id: nat, n: nat)
    requires Initial(w) && id in RunAll(w, acts).streams && Terminal(RunAll(w, acts).status)
    requires var now := RunAll(w, acts); n >= ResumesLeft(now.streams[id], now.log)
    ensures var now := RunAll(w, acts);
            id in RunAll(now, Resumes(id, n)).streams &&
            var end := RunAll(now, Resumes(id, n)).streams[id];
            end.at == Finished && (Delivered(end.sent) == PullSince(now.log, end.start) <==> UpToDate(now.streams[id], now.log))
  {
    var now := RunAll(w, acts);
    EveryRunIsReachable(w, acts);
    ResumesRun(now, id, n);
    QuietStreamFinishes(now.streams[id], now.log, now.status, n);
  }

  lemma FirstAct(w: World, a: Act, acts: seq<Act>)
    ensures RunAll(w, [a] + acts) == RunAll(Perform(w, a), acts)
  {
    assert ([a] + acts)[1..] == acts;
  }

  /** A stream that is sending its first event when the run is cancelled. */
  function CancelledWhileSending(first: string, second: string, last: string): seq<Act> {
    [Append(first, "")] + ([Append(second, "")] + ([Open(0, 0)] + ([Resume(0)] + ([Append(last, "")] + ([SetStatus(Cancelled)] + [])))))
  }

  lemma SendingStream(first: string, second: string)
    ensures var log := [Event(first, "", 0), Event(second, "", 1)];
            var s := Resumed(Opened(0), log, Running);
            s.at == Sending([log[1]]) && s.cur == 1
  {
    var log := [Event(first, "", 0), Event(second, "", 1)];
    assert log[1..] == [log[1]];
  }

  /** The stream ends without the last event, although it was appended before the status
      changed: the batch being sent is followed by no further pull. */
  lemma LastEventIsMissed(first: string, second: string, last: string)
    ensures var w := RunAll(World([], Running, map[]), CancelledWhileSending(first, second, last));
            && |w.log| == 3 && Terminal(w.status) && 0 in w.streams && !UpToDate(w.streams[0], w.log)
  {
    var w0 := World([], Running, map[]);
    var w1 := Perform(w0, Append(first, ""));
    var w2 := Perform(w1, Append(second, ""));
    var w3 := Perform(w2, Open(0, 0));
    var w4 := Perform(w3, Resume(0));
    var w5 := Perform(w4, Append(last, ""));
    var w6 := Perform(w5, SetStatus(Cancelled));
    FirstAct(w0, Append(first, ""), [Append(second, "")] + ([Open(0, 0)] + ([Resume(0)] + ([Append(last, "")] + ([SetStatus(Cancelled)] + [])))));
    FirstAct(w1, Append(second, ""), [Open(0, 0)] + ([Resume(0)] + ([Append(last, "")] + ([SetStatus(Cancelled)] + []))));
    FirstAct(w2, Open(0, 0), [Resume(0)] + ([Append(last, "")] + ([SetStatus(Cancelled)] + [])));
    FirstAct(w3, Resume(0), [Append(last, "")] + ([SetStatus(Cancelled)] + []));
    FirstAct(w4, Append(last, ""), [SetStatus(Cancelled)] + []);
    FirstAct(w5, SetStatus(Cancelled), []);
    assert w2.log == [Event(first, "", 0), Event(second, "", 1)];
    SendingStream(first, second);
    assert w6.streams[0] == w4.streams[0] && |PullSince(w6.log, 1)| == 2;
  }
}
