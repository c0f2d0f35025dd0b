/** What the frames of a stream tell its reader: each cursor is where the reader stands, every
    change of status that the stream sees is told once, and the end repeats the last one. */
module StreamFrames {
  import opened Wrappers
  import opened EventStream

  /** Where a reader stands who started at `start` and believes the event frames. */
  function Standing(start: nat, sent: seq<Frame>): nat {
    if sent == [] then start
    else if sent[|sent| - 1].EventFrame? then sent[|sent| - 1].event.number + 1
    else Standing(start, sent[..|sent| - 1])
  }

  /** The status that was told last. */
  function LastTold(sent: seq<Frame>): Option<Status> {
    if sent == [] then None
    else if sent[|sent| - 1].StatusFrame? then Some(sent[|sent| - 1].status)
    else LastTold(sent[..|sent| - 1])
  }

  /** A frame fits behind others. */
  predicate Fits(standing: nat, told: Option<Status>, f: Frame) {
    match f
    case EventFrame(event, cursor) => cursor == event.number + 1
    case StatusFrame(status, cursor) => cursor == standing && told != Some(status)
    case EndFrame(status, cursor) => cursor == standing && told == Some(status)
  }

  predicate AllFit(start: nat, sent: seq<Frame>) {
    sent == [] ||
    var before := sent[..|sent| - 1];
    AllFit(start, before) && Fits(Standing(start, before), LastTold(before), sent[|sent| - 1])
  }

  /** The generator remembers what it has told, and does not wait or end without having told. */
  predicate Tells(s: Stream) {
    && AllFit(s.start, s.sent) && s.cur == Standing(s.start, s.sent) && s.lastStatus == LastTold(s.sent)
    && (s.at.SentStatus? ==> s.lastStatus == Some(s.at.status))
    && (s.at.Awaiting? || s.at.SentEnd? || s.at.Finished? ==> s.lastStatus.Some?)
  }

  lemma OneMoreFrame(start: nat, sent: seq<Frame>, f: Frame)
    ensures AllFit(start, sent + [f]) <==> AllFit(start, sent) && Fits(Standing(start, sent), LastTold(sent), f)
    ensures Standing(start, sent + [f]) == if f.EventFrame? then f.event.number + 1 else Standing(start, sent)
    ensures LastTold(sent + [f]) == if f.StatusFrame? then Some(f.status) else LastTold(sent)
  {
    assert (sent + [f])[..|sent|] == sent;
  }

  lemma SendTells(s: Stream, batch: seq<Event>)
    requires Tells(s) && batch != []
    ensures Tells(SendFirst(s, batch))
  {
    OneMoreFrame(s.start, s.sent, EventFrame(batch[0], batch[0].number + 1));
  }

  lemma EndTells(s: Stream, log: seq<Event>, status: Status, now: Status)
    requires Tells(s) && s.lastStatus == Some(status)
    ensures Tells(CheckEnd(s, log, status, now))
  {
    OneMoreFrame(s.start, s.sent, EndFrame(status, s.cur));
    if |log| > s.cur { SendTells(s, PullSince(log, s.cur)); }
  }

  lemma StatusTells(s: Stream, log: seq<Event>, status: Status)
    requires Tells(s)
    ensures Tells(CheckStatus(s, log, status))
  {
    OneMoreFrame(s.start, s.sent, StatusFrame(status, s.cur));
    if s.lastStatus == Some(status) { EndTells(s, log, status, status); }
  }

  lemma ResumedTells(s: Stream, log: seq<Event>, status: Status)
    requires Tells(s)
    ensures Tells(Resumed(s, log, status))
  {
    match s.at {
      case Sending(rest) => if rest != [] { SendTells(s, rest); } else { StatusTells(s, log, status); }
      case SentStatus(read) => EndTells(s, log, read, status);
      case SentEnd =>
      case Finished =>
      case _ => if PullSince(log, s.cur) != [] { SendTells(s, PullSince(log, s.cur)); } else { StatusTells(s, log, status); }
    }
  }

  predicate AllTell(w: World) { forall id | id in w.streams :: Tells(w.streams[id]) }

  lemma PerformTells(w: World, a: Act)
    requires AllTell(w)
    ensures AllTell(Perform(w, a))
  {
    match a {
      case Resume(id) => if id in w.streams { ResumedTells(w.streams[id], w.log, w.status); }
      case _ =>
    }
  }

  lemma {:induction false} RunTells(w: World, acts: seq<Act>)
    requires AllTell(w)
    ensures AllTell(RunAll(w, acts))
    decreases |acts|
  {
    if acts != [] {
      PerformTells(w, acts[0]);
      RunTells(Perform(w, acts[0]), acts[1..]);
    }
  }

  /** The same frame by frame. */
  lemma {:induction false} EveryFrameFits(start: nat, sent: seq<Frame>, i: nat)
    requires AllFit(start, sent) && i < |sent|
    ensures Fits(Standing(start, sent[..i]), LastTold(sent[..i]), sent[i])
    decreases |sent|
  {
    var before := sent[..|sent| - 1];
    if i < |sent| - 1 {
      EveryFrameFits(start, before, i);
      assert before[..i] == sent[..i];
    }
  }

  /** Over every run of the world, in every stream: each frame's cursor is where the reader
      stands after it, a status frame tells another status than the one before it, an end frame
      repeats the last one told, and a stream that waits or has ended has told at least one. */
  lemma StatusIsTold(w: World, acts: seq<Act>, id: nat)
    requires Initial(w) && id in RunAll(w, acts).streams
    ensures var s := RunAll(w, acts).streams[id];
            && (forall i | 0 <= i < |s.sent| :: Fits(Standing(s.start, s.sent[..i]), LastTold(s.sent[..i]), s.sent[i]))
            && s.cur == Standing(s.start, s.sent) && s.lastStatus == LastTold(s.sent)
            && (s.at.Awaiting? || s.at.SentEnd? || s.at.Finished? ==> LastTold(s.sent).Some?)
  {
    RunTells(w, acts);
    var s := RunAll(w, acts).streams[id];
    forall i | 0 <= i < |s.sent| ensures Fits(Standing(s.start, s.sent[..i]), LastTold(s.sent[..i]), s.sent[i]) {
      EveryFrameFits(s.start, s.sent, i);
    }
  }

  /** The stream has sent all there is and looks at the run. */
  predicate Looks(s: Stream, log: seq<Event>) {
    s.at == Sending([]) || ((s.at.Fresh? || s.at.Awaiting?) && |log| <= s.cur)
  }

  /** A change of status is told as soon as the stream looks. */
  lemma ChangeIsTold(s: Stream, log: seq<Event>, status: Status)
    requires Tells(s) && Looks(s, log) && LastTold(s.sent) != Some(status)
    ensures Resumed(s, log, status).sent == s.sent + [StatusFrame(status, Standing(s.start, s.sent))]
  {
  }

  /** Behind that, or when there was no change, the stream ends exactly when the run is
      completed, failed, cancelled or idle; otherwise it goes on with what is new, or waits. */
  lemma EndsExactlyWhenOver(s: Stream, log: seq<Event>, status: Status)
    requires Tells(s) && (s.at.SentStatus? || (Looks(s, log) && LastTold(s.sent) == Some(status)))
    ensures var next, standing := Resumed(s, log, status), Standing(s.start, s.sent);
            if status in {Completed, Failed, Cancelled, Idle} then
              LastTold(s.sent).Some? && next.sent == s.sent + [EndFrame(LastTold(s.sent).value, standing)] && next.at.SentEnd?
            else if standing < |log| then
              next.sent == s.sent + [EventFrame(log[standing], log[standing].number + 1)]
            else next.sent == s.sent && next.at == Awaiting(false)
  {
  }

  // ---- The log holds what was appended ----

  function AppendedBy(acts: seq<Act>): seq<(string, string)> {
    if acts == [] then []
    else if acts[0].Append? then [(acts[0].kind, acts[0].payload)] + AppendedBy(acts[1..])
    else AppendedBy(acts[1..])
  }

  /** `log` is `before` with one event for each of the pairs, in order. */
  predicate Logs(before: seq<Event>, log: seq<Event>, more: seq<(string, string)>) {
    && |log| == |before| + |more| && before <= log
    && forall i | 0 <= i < |more| :: log[|before| + i] == Event(more[i].0, more[i].1, |before| + i)
  }

  lemma OneMoreLogged(before: seq<Event>, log: seq<Event>, kind: string, payload: string, rest: seq<(string, string)>)
    requires Logs(Appended(before, kind, payload), log, rest)
    ensures Logs(before, log, [(kind, payload)] + rest)
  {
    var longer, more := Appended(before, kind, payload), [(kind, payload)] + rest;
    forall i | 0 <= i < |more| ensures log[|before| + i] == Event(more[i].0, more[i].1, |before| + i) {
      if i == 0 {
        assert log[|before|] == longer[|before|];
      } else {
        assert more[i] == rest[i - 1] && log[|longer| + (i - 1)] == Event(rest[i - 1].0, rest[i - 1].1, |longer| + (i - 1));
      }
    }
  }

  /** The kinds and payloads of the log are those of the appends, one for each and in order. */
  lemma {:induction false} LogIsWhatWasAppended(w: World, acts: seq<Act>)
    ensures Logs(w.log, RunAll(w, acts).log, AppendedBy(acts))
    decreases |acts|
  {
    if acts != [] {
      var a, rest := acts[0], acts[1..];
      LogIsWhatWasAppended(Perform(w, a), rest);
      if a.Append? { OneMoreLogged(w.log, RunAll(w, acts).log, a.kind, a.payload, AppendedBy(rest)); }
    }
  }

  /** A run is over, or not begun, exactly when it is not active. */
  lemma ActiveOrTerminal(status: Status)
    ensures Active(status) <==> status in {Running, WaitingTool, WaitingUser, WaitingApproval}
    ensures Terminal(status) <==> !Active(status)
  {
  }
}
