/** An agent run as an object: its event log, the readers waiting for news, and the generator
    behind one event stream. The methods do what `EventStream` says of their values. */
module AgentRuns {
  import opened Wrappers
  import opened EventStream
  import opened RunLife

  /** A registered waiter. `cursor` is where its reader stands. */
  datatype Waiter = Waiter(id: nat, cursor: nat, isSet: bool)

  /** The reply to a pending request, cancelled or given by the host; whoever waits for it holds the same object. */
  class Future {
    var done: bool
    var cancelled: bool

    constructor ()
      ensures !done && !cancelled
    {
      done, cancelled := false, false;
    }

    method SetCancelled()
      modifies this
      ensures done && cancelled
    {
      done, cancelled := true, true;
    }

    method SetResult()
      modifies this
      ensures done && !cancelled
    {
      done, cancelled := true, false;
    }
  }

  /** Waiters have distinct ids, and one that is not set belongs to a reader that has seen all
      `n` events. */
  ghost predicate Registered(waiters: seq<Waiter>, next: nat, n: nat) {
    && (forall i | 0 <= i < |waiters| :: waiters[i].id < next)
    && (forall i, j | 0 <= i < j < |waiters| :: waiters[i].id != waiters[j].id)
    && (forall i | 0 <= i < |waiters| :: waiters[i].isSet || n <= waiters[i].cursor)
  }

  class AgentRun {
    const sessionId: string
    const runId: string
    const hydrated: bool
    var status: Status
    var events: seq<Event>
    var cancelRequested: bool
    var pendingTool: Option<Future>
    var pendingUser: Option<Future>
    var pendingApproval: Option<Future>
    /** The loop's task, and the watcher of a re-armed request with the kind it waits for. */
    var task: Task
    var watcher: Watcher
    var watched: Kind
    ghost var strays: nat
    ghost var unwinding: nat
    var waiters: seq<Waiter>
    var nextWaiter: nat

    /** Events are numbered in order, a waiter that is not set belongs to a reader that has seen
        the whole log, and a watcher waits for a pending request. */
    ghost predicate Valid()
      reads this
    {
      LogValid() && WatchValid()
    }

    ghost predicate LogValid()
      reads this`events, this`waiters, this`nextWaiter
    {
      Numbered(events) && Registered(waiters, nextWaiter, |events|)
    }

    ghost predicate WatchValid()
      reads this`watcher, this`watched, this`pendingTool, this`pendingUser, this`pendingApproval
    {
      watcher.Waiting? ==> watched == watcher.kind && Slot(watched).Some?
    }

    function Slot(kind: Kind): Option<Future>
      reads this`pendingTool, this`pendingUser, this`pendingApproval
    {
      match kind case ForTool => pendingTool case ForUser => pendingUser case ForApproval => pendingApproval
    }

    constructor (sessionId: string, runId: string, hydrated: bool, status: Status)
      ensures State() == Born(sessionId, runId, hydrated, status) && waiters == []
      ensures pendingTool == pendingUser == pendingApproval == None
      ensures Valid()
    {
      this.sessionId, this.runId, this.hydrated, this.status := sessionId, runId, hydrated, status;
      events, waiters, nextWaiter, cancelRequested := [], [], 0, false;
      task, watcher, watched, strays, unwinding := NoTask, NoWatcher, ForTool, 0, 0;
      pendingTool, pendingUser, pendingApproval := None, None, None;
    }

    ghost function State(): Run
      reads this
    {
      Run(sessionId, runId, hydrated, status, cancelRequested, task, watcher, strays, unwinding, events)
    }

    /** The requests that somebody is still waiting for an answer to. */
    function Pending(): set<Future>
      reads this`pendingTool, this`pendingUser, this`pendingApproval
    {
      (if pendingTool.Some? then {pendingTool.value} else {})
      + (if pendingUser.Some? then {pendingUser.value} else {})
      + (if pendingApproval.Some? then {pendingApproval.value} else {})
    }

    /** `if run.task and not run.task.done(): run.task.cancel()` */
    method CancelTask()
      modifies this`task
      ensures task == CancelledTask(old(task))
    {
      if task.Live? {
        task := Cancelling;
      }
    }

    /** `_cancel_run`: an active run is cancelled with its task, its pending requests are left
        alone. */
    method Supersede(reason: string)
      requires Valid()
      modifies this`status, this`cancelRequested, this`task, this`events, this`waiters
      ensures Valid() && State() == Superseded(old(State()), reason)
      ensures !old(Busy(status)) ==> State() == old(State())
      ensures old(Busy(status)) ==> status == Cancelled && cancelRequested && !task.Live?
      ensures old(Busy(status)) ==> events == old(events) + [Event("cancelled", reason, |old(events)|)]
    {
      if !Active(status) {
        return;
      }
      cancelRequested := true;
      CancelTask();
      status := Cancelled;
      var _ := AppendEvent(CANCELLED, reason);
    }

    /** The body of `cancel_run`. The run is over, its three slots are empty, and whoever
        waited for an answer has one: an answer that was there before stands, a missing one
        says "cancelled". */
    method Stop()
      requires Valid()
      modifies this, Pending()
      ensures Valid() && State() == Stopped(old(State()))
      ensures status == (if old(status) in {Completed, Failed, Cancelled} then old(status) else Cancelled)
      ensures cancelRequested && !task.Live? && !watcher.Waiting?
      ensures pendingTool == pendingUser == pendingApproval == None
      ensures forall f | f in old(Pending()) :: f.done && f.cancelled == (!old(f.done) || old(f.cancelled))
    {
      Interrupt();
      EndAsCancelled();
    }

    /** The flag, the loop, and whoever waits for an answer. */
    method Interrupt()
      modifies this`cancelRequested, this`task, this`watcher
      modifies this`pendingTool, this`pendingUser, this`pendingApproval, Pending()
      ensures cancelRequested && task == CancelledTask(old(task)) && WatchValid()
      ensures pendingTool == pendingUser == pendingApproval == None
      ensures watcher == if old(watcher).Waiting? then Answered(GivenUp) else old(watcher)
      ensures forall f | f in old(Pending()) :: f.done && f.cancelled == (!old(f.done) || old(f.cancelled))
    {
      cancelRequested := true;
      CancelTask();
      AnswerAll();
    }

    method EndAsCancelled()
      requires LogValid()
      modifies this`status, this`events, this`waiters
      ensures LogValid()
      ensures status == if old(status) in {Completed, Failed, Cancelled} then old(status) else Cancelled
      ensures events == if old(status) in {Completed, Failed, Cancelled} then old(events)
                        else Appended(old(events), CANCELLED, "user_stop")
    {
      if status !in {Completed, Failed, Cancelled} {
        status := Cancelled;
        var _ := AppendEvent(CANCELLED, "user_stop");
      }
    }

    /** Release what is pending; a watcher of it is told that it is cancelled. */
    method AnswerAll()
      modifies this`pendingTool, this`pendingUser, this`pendingApproval, this`watcher, Pending()
      ensures pendingTool == pendingUser == pendingApproval == None && WatchValid()
      ensures watcher == if old(watcher).Waiting? then Answered(GivenUp) else old(watcher)
      ensures forall f | f in old(Pending()) :: f.done && f.cancelled == (!old(f.done) || old(f.cancelled))
    {
      ReleasePending();
      if watcher.Waiting? {
        watcher := Answered(GivenUp);
      }
    }

    /** "Unblock any waiters so the loop can exit", and empty the slots. */
    method ReleasePending()
      modifies this`pendingTool, this`pendingUser, this`pendingApproval, Pending()
      ensures pendingTool == pendingUser == pendingApproval == None
      ensures forall f | f in old(Pending()) :: f.done && f.cancelled == (!old(f.done) || old(f.cancelled))
    {
      Release(pendingTool);
      Release(pendingUser);
      Release(pendingApproval);
      pendingTool, pendingUser, pendingApproval := None, None, None;
    }

    /** What the continue endpoint does to a run that is not active: a new loop starts, and
        nobody keeps track of an old one that is not done. */
    method Restart(attached: bool)
      requires Valid() && !Active(status)
      modifies this
      ensures Valid() && State() == Continued(old(State()), attached)
      ensures status == Running && !cancelRequested && task.Live? && |events| > 0
      ensures events[|events| - 1] == Event("session_continued", runId, |events| - 1)
    {
      cancelRequested, status := false, Running;
      AnnounceContinuation(attached);
      ReplaceTask();
    }

    method AnnounceContinuation(attached: bool)
      requires LogValid()
      modifies this`events, this`waiters
      ensures LogValid() && events == Appended(WithAttachments(old(events), attached), CONTINUED, runId)
    {
      if attached {
        var _ := AppendEvent(ATTACHED, "");
      }
      var _ := AppendEvent(CONTINUED, runId);
    }

    method ReplaceTask()
      modifies this`task, this`strays, this`unwinding
      ensures task == Live
      ensures strays == if old(task).Live? then old(strays) + 1 else old(strays)
      ensures unwinding == if old(task).Cancelling? then old(unwinding) + 1 else old(unwinding)
    {
      strays := if task.Live? then strays + 1 else strays;
      unwinding := if task.Cancelling? then unwinding + 1 else unwinding;
      task := Live;
    }

    /** `ensure_hydrated_wait_armed`, when there is a snapshot of a wait on disk: a run that has
        a pending request already is left as it is. */
    method RearmWait(kind: Kind) returns (armed: bool)
      requires Valid() && hydrated && !IsWaiting(status)
      modifies this
      ensures Valid() && State() == if armed then Rearmed(old(State()), kind) else old(State())
      ensures armed <==> old(Pending()) == {}
      ensures !armed ==> unchanged(this)
      ensures armed ==> fresh(Pending()) && Slot(kind).Some? && !Slot(kind).value.done
      ensures armed ==> status == (match kind case ForTool => WaitingTool case ForUser => WaitingUser case ForApproval => WaitingApproval)
    {
      if pendingTool.Some? || pendingUser.Some? || pendingApproval.Some? {
        HasPending();
        return false;
      }
      Surface(kind);
      armed := true;
    }

    /** The run is shown to be waiting again. */
    method Surface(kind: Kind)
      requires Valid() && Pending() == {} && Rearmable(State())
      modifies this
      ensures Valid() && State() == Rearmed(old(State()), kind)
      ensures fresh(Pending()) && Slot(kind).Some? && !Slot(kind).value.done
    {
      OpenRequest(kind);
      status := WaitingFor(kind);
      var _ := AppendEvent(INTERRUPT, "");
    }

    /** A new pending request, and a watcher for it unless there is one already. */
    method OpenRequest(kind: Kind)
      requires Pending() == {}
      modifies this`pendingTool, this`pendingUser, this`pendingApproval, this`watcher, this`watched
      ensures Slot(kind).Some? && !Slot(kind).value.done && fresh(Pending())
      ensures watcher == if old(watcher).NoWatcher? then Waiting(kind) else old(watcher)
      ensures old(WatchValid()) ==> WatchValid()
    {
      if pendingTool.Some? || pendingUser.Some? || pendingApproval.Some? { HasPending(); }
      var request := new Future();
      match kind {
        case ForTool => pendingTool := Some(request);
        case ForUser => pendingUser := Some(request);
        case ForApproval => pendingApproval := Some(request);
      }
      if watcher.NoWatcher? {
        watcher, watched := Waiting(kind), kind;
      }
    }

    lemma HasPending()
      requires pendingTool.Some? || pendingUser.Some? || pendingApproval.Some?
      ensures Pending() != {}
    {
      if pendingTool.Some? { assert pendingTool.value in Pending(); }
      if pendingUser.Some? { assert pendingUser.value in Pending(); }
      if pendingApproval.Some? { assert pendingApproval.value in Pending(); }
    }

    /** `deliver_tool_result` and its two siblings: the first answer counts. */
    method Deliver(kind: Kind, reply: Reply) returns (ok: bool)
      requires Valid() && (reply == Plain || (reply == Approved && kind == ForApproval))
      modifies this`watcher, Pending()
      ensures Valid() && (ok <==> old(Slot(kind).Some? && !Slot(kind).value.done))
      ensures State() == if ok then Told(old(State()), kind, reply) else old(State())
      ensures ok ==> Slot(kind).value.done && !Slot(kind).value.cancelled
      ensures !ok ==> unchanged(this)
    {
      var request := Slot(kind);
      if request.None? || request.value.done {
        return false;
      }
      request.value.SetResult();
      if watcher == Waiting(kind) {
        watcher := Answered(reply);
      }
      ok := true;
    }

    method ClearSlot(kind: Kind)
      modifies this`pendingTool, this`pendingUser, this`pendingApproval
      ensures Slot(kind).None? && Pending() <= old(Pending())
    {
      match kind {
        case ForTool => pendingTool := None;
        case ForUser => pendingUser := None;
        case ForApproval => pendingApproval := None;
      }
    }

    /** `_emit_conclusion` with status "cancelled". */
    method Conclude()
      requires Valid()
      modifies this`status, this`events, this`waiters
      ensures Valid() && State() == Concluded(old(State()))
    {
      status := Cancelled;
      var _ := AppendEvent(CONCLUSION, CANCELLED);
      var _ := AppendEvent(CANCELLED, CANCELLED);
    }

    /** `_watch_wait_and_resume`, from the answer on to the next suspension. */
    method WakeWatcher(quiet: bool)
      requires Valid() && watcher.Answered?
      modifies this
      ensures Valid() && State() == Awake(old(State()), quiet)
      ensures old(watcher.reply) != GivenUp || !quiet ==> Slot(old(watched)).None?
      ensures old(watcher.reply) == Approved ==> status == WaitingTool
      ensures old(watcher.reply) == Plain ==> status == if old(cancelRequested) then Cancelled else Running
    {
      var reply := watcher.reply;
      if reply == GivenUp && quiet {
        watcher := NoWatcher;
        return;
      }
      ClearSlot(watched);
      if reply == GivenUp || (reply == Plain && cancelRequested) {
        watcher := NoWatcher;
        Conclude();
        return;
      }
      watcher := Looping;
      status := if reply == Approved then WaitingTool else Running;
    }

    /** A loop that catches the `CancelledError` itself goes on. */
    method SwallowCancel(replaced: bool)
      requires Valid() && (if replaced then unwinding > 0 else task.Cancelling?)
      modifies this`task, this`strays, this`unwinding
      ensures Valid() && State() == Swallowed(old(State()), replaced)
    {
      if replaced {
        unwinding, strays := unwinding - 1, strays + 1;
      } else {
        task := Live;
      }
    }

    /** The handler of a loop's `CancelledError`, if the cancellation hits inside of it. */
    method UnwindTask(replaced: bool, emits: bool)
      requires Valid() && (if replaced then unwinding > 0 else task.Cancelling?)
      modifies this
      ensures Valid() && State() == Unwound(old(State()), replaced, emits)
      ensures emits ==> status == Cancelled && |events| == |old(events)| + 2 && events[|events| - 1].kind == "cancelled"
      ensures !emits ==> status == old(status) && events == old(events)
    {
      if replaced {
        unwinding := unwinding - 1;
      } else {
        task := NoTask;
      }
      if emits {
        Conclude();
      }
    }

    /** What the stall watcher does to a run that is still running. */
    method FailStalled()
      requires Valid()
      modifies this
      ensures Valid() && State() == FailedByStall(old(State()))
      ensures status == (if old(status) == Running then Failed else old(status)) && (old(status) == Running ==> !task.Live?)
    {
      if !status.Running? {
        return;
      }
      var _ := AppendEvent(STALLED, "");
      status := Failed;
      CancelTask();
    }

    method AppendEvent(kind: string, payload: string) returns (ev: Event)
      requires LogValid()
      modifies this`events, this`waiters
      ensures LogValid()
      ensures events == Appended(old(events), kind, payload) && ev == events[|events| - 1]
      ensures events == old(events) + [Event(kind, payload, |old(events)|)]
      ensures |waiters| == |old(waiters)|
      ensures forall i | 0 <= i < |waiters| :: waiters[i] == old(waiters)[i].(isSet := true)
    {
      ev := Event(kind, payload, |events|);
      events := events + [ev];
      for i := 0 to |waiters|
        invariant events == old(events) + [ev] && |waiters| == |old(waiters)|
        invariant forall k | 0 <= k < i :: waiters[k] == old(waiters)[k].(isSet := true)
        invariant forall k | i <= k < |waiters| :: waiters[k] == old(waiters)[k]
      {
        waiters := waiters[i := waiters[i].(isSet := true)];
      }
    }

    method PullEvents(cursor: int) returns (batch: seq<Event>)
      ensures batch == PullSince(events, cursor)
      ensures cursor <= 0 ==> batch == events
      ensures 0 <= cursor <= |events| ==> batch == events[cursor..]
      ensures cursor > |events| ==> batch == []
    {
      var from := if cursor < 0 then 0 else cursor;
      batch := if from <= |events| then events[from..] else [];
    }

    /** The pull endpoint's next cursor leads on exactly where its batch stopped. */
    method PullWithCursor(cursor: nat) returns (batch: seq<Event>, next: nat)
      requires Valid()
      ensures batch == PullSince(events, cursor)
      ensures batch + PullSince(events, next) == PullSince(events, cursor) && cursor <= next
      ensures PullSince(events, next) == []
    {
      batch := PullEvents(cursor);
      next := if batch != [] then batch[|batch| - 1].number + 1 else cursor;
      assert batch != [] ==> batch[|batch| - 1] == events[|events| - 1];
    }

    /** Up to the suspension: either there is news already, or a waiter is registered. */
    method BeginWait(cursor: nat) returns (id: Option<nat>)
      requires LogValid()
      modifies this`waiters, this`nextWaiter
      ensures LogValid()
      ensures id.None? <==> |events| > cursor
      ensures id.None? ==> waiters == old(waiters)
      ensures id.Some? ==> id.value == old(nextWaiter) && waiters == old(waiters) + [Waiter(id.value, cursor, false)]
    {
      if |events| > cursor {
        return None;
      }
      id := Some(nextWaiter);
      waiters := waiters + [Waiter(nextWaiter, cursor, false)];
      nextWaiter := nextWaiter + 1;
    }

    /** The waiter was set or has timed out: take it off the list, if it is there. */
    method EndWait(id: nat)
      requires LogValid()
      modifies this`waiters
      ensures LogValid()
      ensures waiters == Without(old(waiters), id)
      ensures forall w :: w in waiters <==> w in old(waiters) && w.id != id
    {
      WithoutMembers(waiters, id);
      var i := IndexOf(waiters, id);
      WithoutCuts(waiters, id, i);
      if i < |waiters| {
        CutStaysRegistered(waiters, i, nextWaiter, |events|);
        waiters := waiters[..i] + waiters[i + 1..];
      }
    }
  }

  method IndexOf(waiters: seq<Waiter>, id: nat) returns (i: nat)
    ensures i <= |waiters| && (forall k | 0 <= k < i :: waiters[k].id != id)
    ensures i < |waiters| ==> waiters[i].id == id
  {
    i := 0;
    while i < |waiters| && waiters[i].id != id
      invariant i <= |waiters|
      invariant forall k | 0 <= k < i :: waiters[k].id != id
    {
      i := i + 1;
    }
  }

  lemma CutStaysRegistered(waiters: seq<Waiter>, i: nat, next: nat, n: nat)
    requires i < |waiters| && Registered(waiters, next, n)
    ensures Registered(waiters[..i] + waiters[i + 1..], next, n)
  {
    var rest := waiters[..i] + waiters[i + 1..];
    assert forall k | 0 <= k < |rest| :: rest[k] == waiters[if k < i then k else k + 1];
  }

  method Release(pending: Option<Future>)
    modifies if pending.Some? then {pending.value} else {}
    ensures pending.Some? ==> pending.value.done
    ensures pending.Some? ==> pending.value.cancelled == (!old(pending.value.done) || old(pending.value.cancelled))
  {
    if pending.Some? && !pending.value.done {
      pending.value.SetCancelled();
    }
  }

  /** `list.remove`: the first waiter with that id goes, if there is one. */
  function Without(waiters: seq<Waiter>, id: nat): seq<Waiter> {
    if waiters == [] then []
    else if waiters[0].id == id then waiters[1..]
    else [waiters[0]] + Without(waiters[1..], id)
  }

  lemma {:induction false} WithoutSkips(front: seq<Waiter>, rest: seq<Waiter>, id: nat)
    requires forall k | 0 <= k < |front| :: front[k].id != id
    ensures Without(front + rest, id) == front + Without(rest, id)
  {
    if front == [] {
      assert front + rest == rest;
    } else {
      WithoutSkips(front[1..], rest, id);
      assert (front + rest)[1..] == front[1..] + rest;
    }
  }

  lemma WithoutCuts(waiters: seq<Waiter>, id: nat, i: nat)
    requires i <= |waiters| && forall k | 0 <= k < i :: waiters[k].id != id
    requires i < |waiters| ==> waiters[i].id == id
    ensures Without(waiters, id) == if i < |waiters| then waiters[..i] + waiters[i + 1..] else waiters
  {
    WithoutSkips(waiters[..i], waiters[i..], id);
    assert waiters[..i] + waiters[i..] == waiters;
  }

  /** Exactly that waiter goes, as ids are distinct. */
  lemma {:induction false} WithoutMembers(waiters: seq<Waiter>, id: nat)
    requires forall i, j | 0 <= i < j < |waiters| :: waiters[i].id != waiters[j].id
    ensures forall w :: w in Without(waiters, id) <==> w in waiters && w.id != id
  {
    if waiters != [] {
      var rest := waiters[1..];
      assert waiters == [waiters[0]] + rest;
      assert forall w | w in rest :: w.id != waiters[0].id;
      WithoutMembers(rest, id);
    }
  }

  /** The waiters but for one stay, and those that come have new ids. */
  ghost predicate Others(was: seq<Waiter>, now: seq<Waiter>, gone: Option<nat>, next: nat) {
    && (forall w :: w in was && gone != Some(w.id) ==> w in now)
    && (forall w :: w in now ==> w in was || w.id >= next)
  }

  /** The generator behind a stream. `Resume` runs it to its next suspension point. */
  class EventGenerator {
    const run: AgentRun
    const start: nat
    var cur: nat
    var lastStatus: Option<Status>
    var at: Point
    var waiter: nat
    var sent: seq<Frame>

    constructor (run: AgentRun, cursor: nat)
      ensures this.run == run && State() == Opened(cursor)
    {
      this.run, start, cur := run, cursor, cursor;
      lastStatus, at, waiter, sent := None, Fresh, 0, [];
    }

    /** While suspended on a waiter, the waiter is registered with the run. */
    ghost predicate Valid()
      reads this, run
    {
      run.Valid() && (at.Awaiting? ==> Waiter(waiter, cur, true) in run.waiters || Waiter(waiter, cur, false) in run.waiters)
    }

    ghost function Own(): Option<nat>
      reads this
    {
      if at.Awaiting? then Some(waiter) else None
    }

    /** The flag of the waiter is the run's to set. */
    function State(): Stream
      reads this, run
    {
      Stream(start, cur, lastStatus, if at.Awaiting? then Awaiting(Waiter(waiter, cur, true) in run.waiters) else at, sent)
    }

    method Send(batch: seq<Event>)
      requires batch != []
      modifies this`cur, this`at, this`sent
      ensures State() == SendFirst(old(State()), batch)
    {
      cur := batch[0].number + 1;
      sent := sent + [EventFrame(batch[0], cur)];
      at := Sending(batch[1..]);
    }

    /** `if run.status in terminal`, then the await at the bottom of the loop. */
    method Conclude(status: Status)
      requires run.Valid()
      modifies this`cur, this`at, this`sent, this`waiter, run`waiters, run`nextWaiter
      ensures State() == CheckEnd(old(State()), run.events, status, run.status)
      ensures Valid()
      ensures Others(old(run.waiters), run.waiters, None, old(run.nextWaiter))
      ensures at.Awaiting? ==> waiter >= old(run.nextWaiter)
    {
      if Terminal(run.status) {
        sent := sent + [EndFrame(status, cur)];
        at := SentEnd;
        return;
      }
      var id := run.BeginWait(cur);
      if id.None? {
        var batch := run.PullEvents(cur);
        Send(batch);
      } else {
        at, waiter := Awaiting(false), id.value;
        assert run.waiters[|run.waiters| - 1].id == waiter;
      }
    }

    method ReportStatus()
      requires run.Valid()
      modifies this`cur, this`at, this`sent, this`waiter, this`lastStatus, run`waiters, run`nextWaiter
      ensures State() == CheckStatus(old(State()), run.events, run.status)
      ensures Valid()
      ensures Others(old(run.waiters), run.waiters, None, old(run.nextWaiter))
      ensures at.Awaiting? ==> waiter >= old(run.nextWaiter)
    {
      var status := run.status;
      if lastStatus != Some(status) {
        lastStatus := Some(status);
        sent := sent + [StatusFrame(status, cur)];
        at := SentStatus(status);
        return;
      }
      Conclude(status);
    }

    /** Only the generator's own waiter goes, and only a waiter with a new id comes. */
    method Resume()
      requires Valid()
      modifies this`cur, this`at, this`sent, this`waiter, this`lastStatus, run`waiters, run`nextWaiter
      ensures State() == Resumed(old(State()), run.events, run.status)
      ensures Valid()
      ensures Others(old(run.waiters), run.waiters, old(Own()), old(run.nextWaiter))
      ensures at.Awaiting? ==> waiter >= old(run.nextWaiter)
    {
      if at.Sending? && at.rest != [] {
        Send(at.rest);
      } else if at.Sending? {
        ReportStatus();
      } else if at.SentStatus? {
        Conclude(at.status);
      } else if at.SentEnd? {
        at := Finished;
      } else if !at.Finished? {
        if at.Awaiting? {
          run.EndWait(waiter);
        }
        var batch := run.PullEvents(cur);
        if batch != [] { Send(batch); } else { ReportStatus(); }
      }
    }
  }

  // ---- A run with its streams is a world ----

  /** Generators of the same run, each registered on its own. */
  ghost predicate Served(run: AgentRun, gens: map<nat, EventGenerator>)
    reads run, gens.Values
  {
    && run.Valid()
    && (forall id | id in gens :: gens[id].run == run && gens[id].Valid())
    && (forall a, b | a in gens && b in gens && a != b :: gens[a] != gens[b] && Apart(gens[a], gens[b]))
  }

  ghost predicate Apart(g: EventGenerator, h: EventGenerator)
    reads g, h
  {
    g.at.Awaiting? && h.at.Awaiting? ==> g.waiter != h.waiter
  }

  ghost function WorldOf(run: AgentRun, gens: map<nat, EventGenerator>): World
    reads run, gens.Values, set id | id in gens :: gens[id].run
  {
    World(run.events, run.status, map id | id in gens :: gens[id].State())
  }

  /** An append while streams are open: all of them are woken, and each stays in step. */
  method AppendBeside(run: AgentRun, gens: map<nat, EventGenerator>, kind: string, payload: string)
    requires Served(run, gens)
    modifies run`events, run`waiters
    ensures Served(run, gens) && WorldOf(run, gens) == Perform(old(WorldOf(run, gens)), Append(kind, payload))
  {
    ghost var before := run.waiters;
    var _ := run.AppendEvent(kind, payload);
    forall id | id in gens ensures gens[id].Valid() && gens[id].State() == Woken(old(gens[id].State())) {
      AllSetSeen(before, run.waiters, gens[id].waiter, gens[id].cur);
    }
  }

  lemma AllSetSeen(was: seq<Waiter>, now: seq<Waiter>, id: nat, cursor: nat)
    requires |was| == |now| && forall i | 0 <= i < |now| :: now[i] == was[i].(isSet := true)
    ensures Waiter(id, cursor, true) in was || Waiter(id, cursor, false) in was ==> Waiter(id, cursor, true) in now
  {
    if Waiter(id, cursor, true) in was || Waiter(id, cursor, false) in was {
      var i :| 0 <= i < |was| && was[i].id == id && was[i].cursor == cursor;
      assert now[i] == Waiter(id, cursor, true);
    }
  }

  /** A waiter that is not the one that goes stays as it is. */
  lemma OthersStay(was: seq<Waiter>, now: seq<Waiter>, gone: Option<nat>, next: nat, w: Waiter)
    requires Others(was, now, gone, next) && w.id < next && gone != Some(w.id)
    ensures w in was <==> w in now
  {
  }

  /** A resumption of one stream beside others is the world's step. */
  method ResumeBeside(run: AgentRun, gens: map<nat, EventGenerator>, id: nat)
    requires Served(run, gens) && id in gens
    modifies gens[id], run`waiters, run`nextWaiter
    ensures Served(run, gens) && WorldOf(run, gens) == Perform(old(WorldOf(run, gens)), Resume(id))
  {
    ghost var before := WorldOf(run, gens).streams;
    ResumeOne(run, gens, id);
    OneStreamChanged(before, WorldOf(run, gens).streams, id);
  }

  lemma OneStreamChanged(was: map<nat, Stream>, now: map<nat, Stream>, id: nat)
    requires was.Keys == now.Keys && id in now && forall other | other in now && other != id :: now[other] == was[other]
    ensures now == was[id := now[id]]
  {
  }

  /** No other stream notices. */
  method ResumeOne(run: AgentRun, gens: map<nat, EventGenerator>, id: nat)
    requires Served(run, gens) && id in gens
    modifies gens[id], run`waiters, run`nextWaiter
    ensures Served(run, gens)
    ensures gens[id].State() == Resumed(old(gens[id].State()), run.events, run.status)
    ensures forall other | other in gens && other != id :: gens[other].State() == old(gens[other].State())
  {
    ghost var was, next, gone := run.waiters, run.nextWaiter, gens[id].Own();
    gens[id].Resume();
    forall other | other in gens && other != id
      ensures gens[other].Valid() && gens[other].State() == old(gens[other].State()) && Apart(gens[id], gens[other])
    {
      var h := gens[other];
      if h.at.Awaiting? {
        OthersStay(was, run.waiters, gone, next, Waiter(h.waiter, h.cur, true));
        OthersStay(was, run.waiters, gone, next, Waiter(h.waiter, h.cur, false));
      }
    }
  }
}
