/** The life of one agent run: who can still change it, and what that means once it is over.

    Three kinds of coroutines drive a run. `task` is the loop that the run itself refers to and
    that a cancel reaches; a cancelled task goes on until it unwinds. The watcher waits for the
    answer to a request that was re-armed from disk, and then runs a loop of its own. A loop
    whose `task` field was overwritten by a continuation is a stray. */
module RunLife {
  import opened EventStream

  datatype Task = NoTask | Live | Cancelling

  datatype Kind = ForTool | ForUser | ForApproval

  /** What a pending request is answered with; a declined approval is a `Plain` answer. */
  datatype Reply = GivenUp | Plain | Approved

  datatype Watcher = NoWatcher | Waiting(kind: Kind) | Answered(reply: Reply) | Looping

  /** `strays` are live loops and `unwinding` cancelled ones that `task` no longer refers to. */
  datatype Run = Run(session: string, id: string, hydrated: bool, status: Status, cancelRequested: bool,
                     task: Task, watcher: Watcher, strays: nat, unwinding: nat, events: seq<Event>)

  const CANCELLED := "cancelled"
  const CONTINUED := "session_continued"
  const ATTACHED := "context_attached"
  const CONCLUSION := "conclusion"
  const INTERRUPT := "graph_interrupt"
  const STALLED := "run_stalled"

  function Born(session: string, id: string, hydrated: bool, status: Status): Run {
    Run(session, id, hydrated, status, false, NoTask, NoWatcher, 0, 0, [])
  }

  predicate IsActive(r: Run) { Active(r.status) }

  predicate Over(r: Run) { r.status in {Completed, Failed, Cancelled} }

  // ---- What can happen to a run ----

  datatype Driver = ByTask | ByWatcher | ByStray

  datatype Change =
    | Supersede(reason: string)
    | Stop
    | Restart(attached: bool)
    | Rearm(kind: Kind)
    | Answer(kind: Kind, reply: Reply)
    | Launch
    | Wake(quiet: bool)
    | Unwind(replaced: bool, emits: bool)
    | Swallow(replaced: bool)
    | Stall
    | Step(who: Driver, status: Status)
    | Emit(name: string, payload: string)
    | Finish(who: Driver)

  function CancelledTask(t: Task): Task { if t.Live? then Cancelling else t }

  /** `_emit_conclusion` with status "cancelled". */
  function Concluded(r: Run): Run {
    r.(status := Cancelled, events := Appended(Appended(r.events, CONCLUSION, CANCELLED), CANCELLED, CANCELLED))
  }

  /** `_cancel_run`: only an active run is touched, and its pending requests are left alone. */
  function Superseded(r: Run, reason: string): Run {
    if Active(r.status) then
      r.(cancelRequested := true, task := CancelledTask(r.task), status := Cancelled, events := Appended(r.events, CANCELLED, reason))
    else r
  }

  /** `cancel_run`: a completed, failed or cancelled run keeps its status, but its task is
      cancelled and its requests are answered all the same. */
  function Stopped(r: Run): Run {
    var t := r.(cancelRequested := true, task := CancelledTask(r.task),
                watcher := if r.watcher.Waiting? then Answered(GivenUp) else r.watcher);
    if Over(r) then t else t.(status := Cancelled, events := Appended(r.events, CANCELLED, "user_stop"))
  }

  function WithAttachments(events: seq<Event>, attached: bool): seq<Event> {
    if attached then Appended(events, ATTACHED, "") else events
  }

  /** The continue endpoint starts a new loop and forgets about the old one. */
  function Continued(r: Run, attached: bool): Run {
    if Active(r.status) then r
    else r.(cancelRequested := false, status := Running, task := Live,
            strays := if r.task.Live? then r.strays + 1 else r.strays,
            unwinding := if r.task.Cancelling? then r.unwinding + 1 else r.unwinding,
            events := Appended(WithAttachments(r.events, attached), CONTINUED, r.id))
  }

  function WaitingFor(kind: Kind): Status {
    match kind case ForTool => WaitingTool case ForUser => WaitingUser case ForApproval => WaitingApproval
  }

  predicate IsWaiting(s: Status) { s in {WaitingTool, WaitingUser, WaitingApproval} }

  /** A run from disk that waits for nothing. */
  predicate Rearmable(r: Run) { r.hydrated && !IsWaiting(r.status) && !r.watcher.Waiting? }

  /** A watcher that is still busy is kept, and nobody waits for the new request. */
  function Rearmed(r: Run, kind: Kind): Run {
    if Rearmable(r) then
      r.(status := WaitingFor(kind), watcher := if r.watcher.NoWatcher? then Waiting(kind) else r.watcher,
         events := Appended(r.events, INTERRUPT, ""))
    else r
  }

  /** The host's answer; only an approval can be approved. */
  function Told(r: Run, kind: Kind, reply: Reply): Run {
    if r.watcher == Waiting(kind) && (reply == Plain || (reply == Approved && kind == ForApproval))
    then r.(watcher := Answered(reply))
    else r
  }

  /** The watcher gets its answer. One that has not begun to wait finds its request gone
      (`quiet`). A loop looks at the cancel flag before anything else, except that an approved
      command is sent to the host first. */
  function Awake(r: Run, quiet: bool): Run {
    match r.watcher
    case Answered(GivenUp) => if quiet then r.(watcher := NoWatcher) else Concluded(r.(watcher := NoWatcher))
    case Answered(Plain) =>
      if r.cancelRequested then Concluded(r.(watcher := NoWatcher)) else r.(watcher := Looping, status := Running)
    case Answered(Approved) => r.(watcher := Looping, status := WaitingTool)
    case _ => r
  }

  /** A cancelled loop's handler; it says nothing when the cancellation hits outside of it. */
  function Unwound(r: Run, replaced: bool, emits: bool): Run {
    if replaced && r.unwinding > 0 then
      var t := r.(unwinding := r.unwinding - 1);
      if emits then Concluded(t) else t
    else if !replaced && r.task.Cancelling? then
      var t := r.(task := NoTask);
      if emits then Concluded(t) else t
    else r
  }

  /** A loop that catches its cancellation goes on as before. */
  function Swallowed(r: Run, replaced: bool): Run {
    if replaced && r.unwinding > 0 then r.(unwinding := r.unwinding - 1, strays := r.strays + 1)
    else if !replaced && r.task.Cancelling? then r.(task := Live)
    else r
  }

  function FailedByStall(r: Run): Run {
    if r.status.Running? then
      r.(status := Failed, task := CancelledTask(r.task), events := Appended(r.events, STALLED, ""))
    else r
  }

  predicate Drives(r: Run, who: Driver) {
    match who case ByTask => r.task.Live? case ByWatcher => r.watcher.Looping? case ByStray => r.strays > 0
  }

  predicate HasLoop(r: Run) { Drives(r, ByTask) || Drives(r, ByWatcher) || Drives(r, ByStray) }

  /** A live loop sets the status; the run's own one no longer does once the run is over. */
  function Stepped(r: Run, who: Driver, status: Status): Run {
    if Drives(r, who) && (who.ByTask? ==> Active(r.status)) then r.(status := status) else r
  }

  /** Anybody appends events, but only live loops append "cancelled" this way. */
  function Emitted(r: Run, kind: string, payload: string): Run {
    if kind != CONTINUED && (kind == CANCELLED ==> HasLoop(r)) then r.(events := Appended(r.events, kind, payload)) else r
  }

  function Finished(r: Run, who: Driver): Run {
    if !Drives(r, who) then r
    else match who
      case ByTask => r.(task := NoTask)
      case ByWatcher => r.(watcher := NoWatcher)
      case ByStray => r.(strays := r.strays - 1)
  }

  function Launched(r: Run): Run { if r.task.NoTask? && r.status.Running? && !r.hydrated then r.(task := Live) else r }

  function After(r: Run, c: Change): Run {
    match c
    case Supersede(reason) => Superseded(r, reason)
    case Stop => Stopped(r)
    case Restart(attached) => Continued(r, attached)
    case Rearm(kind) => Rearmed(r, kind)
    case Answer(kind, reply) => Told(r, kind, reply)
    case Launch => Launched(r)
    case Wake(quiet) => Awake(r, quiet)
    case Unwind(replaced, emits) => Unwound(r, replaced, emits)
    case Swallow(replaced) => Swallowed(r, replaced)
    case Stall => FailedByStall(r)
    case Step(who, status) => Stepped(r, who, status)
    case Emit(name, payload) => Emitted(r, name, payload)
    case Finish(who) => Finished(r, who)
  }

  function AfterAll(r: Run, cs: seq<Change>): Run
    decreases |cs|
  {
    if cs == [] then r else AfterAll(After(r, cs[0]), cs[1..])
  }

  lemma FirstOfTwo(r: Run, cs: seq<Change>)
    requires 1 <= |cs| <= 2
    ensures AfterAll(r, cs) == if |cs| == 1 then After(r, cs[0]) else After(After(r, cs[0]), cs[1])
  {
    if |cs| == 2 { assert AfterAll(After(r, cs[0]), cs[1..]) == After(After(r, cs[0]), cs[1]); }
  }

  /** Neither continued nor re-armed. */
  predicate LeftAlone(cs: seq<Change>) { forall c | c in cs :: !c.Restart? && !c.Rearm? }

  // ---- What the changes come to, field by field ----

  predicate Busy(status: Status) { status in {Running, WaitingTool, WaitingUser, WaitingApproval} }

  function OneMore(r: Run, kind: string, payload: string): seq<Event> { r.events + [Event(kind, payload, |r.events|)] }

  /** A busy run is cancelled, with the reason in its log; everything else about it stays. */
  lemma SupersedingCancels(r: Run, reason: string)
    ensures var t := After(r, Supersede(reason));
            && (!Busy(r.status) ==> t == r)
            && (Busy(r.status) ==>
                  t.status == Cancelled && t.cancelRequested && t.events == OneMore(r, "cancelled", reason)
                  && !t.task.Live? && t.watcher == r.watcher && t.strays == r.strays)
  {
  }

  /** Whatever its status, the run is told to stop, its loop is cancelled and no request of it is
      left open; unless it was over, it is cancelled, with the user's stop in its log. */
  lemma StoppingCancels(r: Run)
    ensures var t := After(r, Stop);
            && t.cancelRequested && !t.task.Live? && !t.watcher.Waiting?
            && (r.status in {Completed, Failed, Cancelled} ==> t.status == r.status && t.events == r.events)
            && (r.status !in {Completed, Failed, Cancelled} ==>
                  t.status == Cancelled && t.events == OneMore(r, "cancelled", "user_stop"))
  {
  }

  /** A run that is not busy runs again, with a new loop and nothing of the stop left. */
  lemma ContinuingRestarts(r: Run, attached: bool)
    requires !Busy(r.status)
    ensures var t := After(r, Restart(attached));
            && t.status == Running && !t.cancelRequested && t.task.Live?
            && t.events == (if attached then OneMore(r, "context_attached", "") else r.events)
                           + [Event("session_continued", r.id, |r.events| + if attached then 1 else 0)]
  {
  }

  /** A run from disk waits again for what it was waiting for, and says so in its log. */
  lemma RearmingWaits(r: Run, kind: Kind)
    requires r.hydrated && r.status !in {WaitingTool, WaitingUser, WaitingApproval} && r.watcher.NoWatcher?
    ensures var t := After(r, Rearm(kind));
            && t.status == (match kind case ForTool => WaitingTool case ForUser => WaitingUser case ForApproval => WaitingApproval)
            && t.watcher == Waiting(kind) && t.events == OneMore(r, "graph_interrupt", "")
  {
  }

  /** An answered wait: a cancelled one ends the run, an answer starts a loop unless the run was
      told to stop, an approved command is carried out even then. */
  lemma WakingGoesOn(r: Run)
    ensures r.watcher == Answered(GivenUp) ==>
              var t := After(r, Wake(false)); t.status == Cancelled && t.watcher.NoWatcher? && |t.events| == |r.events| + 2
    ensures r.watcher == Answered(Plain) && !r.cancelRequested ==>
              var t := After(r, Wake(false)); t.status == Running && t.watcher.Looping? && t.events == r.events
    ensures r.watcher == Answered(Plain) && r.cancelRequested ==>
              var t := After(r, Wake(false)); t.status == Cancelled && t.watcher.NoWatcher? && |t.events| == |r.events| + 2
    ensures r.watcher == Answered(Approved) ==>
              var t := After(r, Wake(false)); t.status == WaitingTool && t.watcher.Looping? && t.events == r.events
  {
  }

  /** A cancelled loop that unwinds inside its handler concludes the run as cancelled. */
  lemma UnwindingConcludes(r: Run)
    requires r.task.Cancelling?
    ensures var t := After(r, Unwind(false, true));
            && t.status == Cancelled && t.task.NoTask?
            && t.events == r.events + [Event("conclusion", "cancelled", |r.events|), Event("cancelled", "cancelled", |r.events| + 1)]
  {
  }

  lemma StallingFails(r: Run)
    ensures var t := After(r, Stall);
            && (r.status == Running ==> t.status == Failed && !t.task.Live? && t.events == OneMore(r, "run_stalled", ""))
            && (r.status != Running ==> t == r)
  {
  }

  // ---- Who can still make the run active ----

  /** A loop that no cancel reaches any more, or a watcher whose answer will start one. */
  predicate Revivable(r: Run) {
    || r.strays > 0
    || r.unwinding > 0
    || r.watcher.Looping?
    || r.watcher == Waiting(ForApproval)
    || r.watcher == Answered(Approved)
    || (!r.cancelRequested && (r.watcher.Waiting? || r.watcher == Answered(Plain)))
  }

  predicate MayWrite(r: Run) { IsActive(r) || Revivable(r) }

  /** What takes place outside of the endpoints. */
  predicate FromOutside(c: Change) {
    c.Launch? || c.Wake? || c.Unwind? || c.Swallow? || c.Stall? || c.Step? || c.Emit? || c.Finish?
  }

  /** The same for a run that no endpoint finds any more: an answer does not reach it. */
  predicate WritesUnreached(r: Run) {
    || IsActive(r)
    || r.strays > 0
    || r.unwinding > 0
    || r.watcher.Looping?
    || r.watcher == Answered(Approved)
    || (!r.cancelRequested && r.watcher == Answered(Plain))
  }

  /** What being superseded does not put an end to. */
  predicate Escapes(r: Run) {
    || r.strays > 0
    || r.unwinding > 0
    || r.watcher.Looping?
    || r.watcher == Waiting(ForApproval)
    || r.watcher == Answered(Approved)
    || (!Active(r.status) && !r.cancelRequested && (r.watcher.Waiting? || r.watcher == Answered(Plain)))
  }

  /** The same for a run that is lost at that moment. */
  predicate EscapesUnreached(r: Run) {
    || r.strays > 0
    || r.unwinding > 0
    || r.watcher.Looping?
    || r.watcher == Answered(Approved)
    || (!Active(r.status) && !r.cancelRequested && r.watcher == Answered(Plain))
  }

  lemma EscapesMeansRevivable(r: Run, reason: string)
    ensures MayWrite(Superseded(r, reason)) <==> Escapes(r)
    ensures WritesUnreached(Superseded(r, reason)) <==> EscapesUnreached(r)
  {
  }

  /** Only a continuation or a re-armed wait makes a writer of a run that was none. */
  lemma MayWriteShrinks(r: Run, c: Change)
    requires !c.Restart? && !c.Rearm?
    ensures MayWrite(After(r, c)) ==> MayWrite(r)
    ensures After(r, c).session == r.session && After(r, c).id == r.id
  {
  }

  lemma WritesUnreachedShrinks(r: Run, c: Change)
    requires FromOutside(c)
    ensures WritesUnreached(After(r, c)) ==> WritesUnreached(r)
  {
  }

  lemma OverStays(r: Run, c: Change)
    requires Over(r) && !Revivable(r) && !c.Restart? && !c.Rearm?
    ensures Over(After(r, c)) && !Revivable(After(r, c))
  {
  }

  lemma {:induction false} OverStaysOver(r: Run, cs: seq<Change>)
    requires Over(r) && !Revivable(r) && LeftAlone(cs)
    ensures Over(AfterAll(r, cs)) && !Revivable(AfterAll(r, cs))
    decreases |cs|
  {
    if cs != [] {
      assert cs[0] in cs;
      OverStays(r, cs[0]);
      OverStaysOver(After(r, cs[0]), cs[1..]);
    }
  }

  /** How a revivable run comes to life, with nothing but loops and hosts at work. */
  function Revival(r: Run): seq<Change> {
    if r.strays > 0 then [Step(ByStray, Running)]
    else if r.unwinding > 0 then [Swallow(true), Step(ByStray, Running)]
    else match r.watcher
      case Looping => [Step(ByWatcher, Running)]
      case Waiting(kind) => [Answer(kind, if kind.ForApproval? then Approved else Plain), Wake(true)]
      case _ => [Wake(true)]
  }

  lemma RevivalRevives(r: Run)
    requires Revivable(r)
    ensures IsActive(AfterAll(r, Revival(r))) && LeftAlone(Revival(r))
    ensures WritesUnreached(r) && !IsActive(r) ==> forall c | c in Revival(r) :: FromOutside(c)
  {
    FirstOfTwo(r, Revival(r));
  }

  // ---- Who can still add to the log of a run that is over ----

  predicate Undriven(r: Run) { r.task.NoTask? && r.watcher.NoWatcher? && r.strays == 0 && r.unwinding == 0 }

  function Count(events: seq<Event>, kind: string): nat {
    if events == [] then 0
    else Count(events[..|events| - 1], kind) + (if events[|events| - 1].kind == kind then 1 else 0)
  }

  lemma CountAppended(events: seq<Event>, kind: string, payload: string, counted: string)
    ensures Count(Appended(events, kind, payload), counted) == Count(events, counted) + (if kind == counted then 1 else 0)
  {
    assert Appended(events, kind, payload)[..|events|] == events;
  }

  function Cancels(r: Run): nat { Count(r.events, CANCELLED) }

  lemma ConcludedCounts(r: Run)
    ensures Cancels(Concluded(r)) == Cancels(r) + 1
  {
    CountAppended(r.events, CONCLUSION, CANCELLED, CANCELLED);
    CountAppended(Appended(r.events, CONCLUSION, CANCELLED), CANCELLED, CANCELLED, CANCELLED);
  }

  /** What is settled about a run: status and cancellations stay, and the log only grows. */
  predicate Settled(r: Run, t: Run) { t.status == r.status && Cancels(t) == Cancels(r) && r.events <= t.events }

  lemma SettledStep(r: Run, c: Change)
    requires Over(r) && Undriven(r) && !c.Restart? && !c.Rearm?
    ensures Settled(r, After(r, c)) && Undriven(After(r, c))
  {
    if c.Emit? { CountAppended(r.events, c.name, c.payload, CANCELLED); }
  }

  lemma {:induction false} SettledStays(r: Run, cs: seq<Change>)
    requires Over(r) && Undriven(r) && LeftAlone(cs)
    ensures Settled(r, AfterAll(r, cs))
    decreases |cs|
  {
    if cs != [] {
      assert cs[0] in cs;
      SettledStep(r, cs[0]);
      SettledStays(After(r, cs[0]), cs[1..]);
    }
  }

  /** How a driver that is left adds one more "cancelled" to the log. */
  function OneMoreCancel(r: Run): seq<Change> {
    if r.strays > 0 || r.task.Live? || r.watcher.Looping? then [Emit(CANCELLED, "")]
    else if r.task.Cancelling? then [Unwind(false, true)]
    else if r.unwinding > 0 then [Unwind(true, true)]
    else match r.watcher
      case Waiting(kind) => [Stop, Wake(false)]
      case Answered(Approved) => [Wake(false), Emit(CANCELLED, "")]
      case Answered(Plain) => [Stop, Wake(false)]
      case _ => [Wake(false)]
  }

  lemma LoopCancelCounts(r: Run)
    requires HasLoop(r)
    ensures Cancels(After(r, Emit(CANCELLED, ""))) == Cancels(r) + 1
  {
    CountAppended(r.events, CANCELLED, "", CANCELLED);
  }

  lemma ConclusionCounts(r: Run, c: Change)
    requires After(r, c).events == Concluded(r).events
    ensures Cancels(After(r, c)) == Cancels(r) + 1
  {
    ConcludedCounts(r);
  }

  lemma OneMoreCancelCounts(r: Run)
    requires Over(r) && !Undriven(r)
    ensures Cancels(AfterAll(r, OneMoreCancel(r))) > Cancels(r) && LeftAlone(OneMoreCancel(r))
  {
    FirstOfTwo(r, OneMoreCancel(r));
    if HasLoop(r) {
      LoopCancelCounts(r);
    } else if r.task.Cancelling? || r.unwinding > 0 || r.watcher == Answered(GivenUp) {
      ConclusionCounts(r, OneMoreCancel(r)[0]);
    } else if r.watcher == Answered(Approved) {
      LoopCancelCounts(After(r, Wake(false)));
    } else {
      StoppedWakesCancelled(r);
    }
  }

  lemma StoppedWakesCancelled(r: Run)
    requires Over(r) && (r.watcher.Waiting? || r.watcher == Answered(Plain))
    ensures Cancels(After(After(r, Stop), Wake(false))) == Cancels(r) + 1
  {
    ConclusionCounts(After(r, Stop), Wake(false));
  }

  // ---- How often the store cancels one run ----

  predicate ByStore(c: Change) { c.Supersede? || c.Stop? }

  /** The "cancelled" events that `cancel_run` and supersession append. */
  function StoreCancels(r: Run, cs: seq<Change>): nat
    decreases |cs|
  {
    if cs == [] then 0
    else StoreCancels(After(r, cs[0]), cs[1..]) + (if ByStore(cs[0]) && After(r, cs[0]).events != r.events then 1 else 0)
  }

  /** How often the run, being over, comes to life again. */
  function Revivals(r: Run, cs: seq<Change>): nat
    decreases |cs|
  {
    if cs == [] then 0
    else Revivals(After(r, cs[0]), cs[1..]) + (if Over(r) && !Over(After(r, cs[0])) then 1 else 0)
  }

  /** The store's "cancelled" events are at most one for each life, whatever the loops do. */
  lemma {:induction false} OneStoreCancelPerLife(r: Run, cs: seq<Change>)
    ensures StoreCancels(r, cs) <= Revivals(r, cs) + (if Over(r) then 0 else 1)
    decreases |cs|
  {
    if cs != [] {
      if ByStore(cs[0]) && After(r, cs[0]).events != r.events { StoreCancelEndsALife(r, cs[0]); }
      OneStoreCancelPerLife(After(r, cs[0]), cs[1..]);
    }
  }

  /** Those events are in the log, among the ones that the loops append. */
  lemma {:induction false} StoreCancelsAreLogged(r: Run, cs: seq<Change>)
    ensures Cancels(AfterAll(r, cs)) >= Cancels(r) + StoreCancels(r, cs)
    decreases |cs|
  {
    if cs != [] {
      CancelIsLogged(r, cs[0]);
      StoreCancelsAreLogged(After(r, cs[0]), cs[1..]);
    }
  }

  /** What a change appends to the log. */
  ghost predicate Grown(r: Run, t: Run, kind: string) {
    || t.events == r.events
    || t.events == Concluded(r).events
    || (exists payload :: t.events == Appended(r.events, kind, payload))
    || t.events == Appended(Appended(r.events, ATTACHED, ""), CONTINUED, r.id)
  }

  function KindOf(c: Change): string {
    match c
    case Restart(_) => CONTINUED
    case Rearm(_) => INTERRUPT
    case Stall => STALLED
    case Emit(name, _) => name
    case _ => CANCELLED
  }

  lemma ChangeGrows(r: Run, c: Change)
    ensures Grown(r, After(r, c), KindOf(c))
    ensures ByStore(c) ==> After(r, c).events == r.events || exists payload :: After(r, c).events == Appended(r.events, CANCELLED, payload)
  {
    match c {
      case Supersede(reason) => assert IsActive(r) ==> After(r, c).events == Appended(r.events, CANCELLED, reason);
      case Stop => assert !Over(r) ==> After(r, c).events == Appended(r.events, CANCELLED, "user_stop");
      case Restart(attached) =>
        assert !IsActive(r) ==> After(r, c).events == Appended(WithAttachments(r.events, attached), CONTINUED, r.id);
      case Rearm(_) => assert Rearmable(r) ==> After(r, c).events == Appended(r.events, INTERRUPT, "");
      case Stall => assert r.status.Running? ==> After(r, c).events == Appended(r.events, STALLED, "");
      case Emit(name, payload) => assert After(r, c).events == r.events || After(r, c).events == Appended(r.events, name, payload);
      case _ =>
    }
  }

  lemma CancelIsLogged(r: Run, c: Change)
    ensures Cancels(After(r, c)) >= Cancels(r) + (if ByStore(c) && After(r, c).events != r.events then 1 else 0)
  {
    var t := After(r, c);
    ChangeGrows(r, c);
    ConcludedCounts(r);
    CountAppended(r.events, ATTACHED, "", CANCELLED);
    CountAppended(Appended(r.events, ATTACHED, ""), CONTINUED, r.id, CANCELLED);
    forall payload ensures Count(Appended(r.events, KindOf(c), payload), CANCELLED) ==
                           Cancels(r) + (if KindOf(c) == CANCELLED then 1 else 0) {
      CountAppended(r.events, KindOf(c), payload, CANCELLED);
    }
  }

  lemma StoreCancelEndsALife(r: Run, c: Change)
    requires ByStore(c) && After(r, c).events != r.events
    ensures !Over(r) && Over(After(r, c))
  {
  }

  lemma {:induction false} NoRevivals(r: Run, cs: seq<Change>)
    requires !Revivable(r) && LeftAlone(cs)
    ensures Revivals(r, cs) == 0
    decreases |cs|
  {
    if cs != [] {
      assert cs[0] in cs;
      NotRevivableStays(r, cs[0]);
      if Over(r) { OverStays(r, cs[0]); }
      NoRevivals(After(r, cs[0]), cs[1..]);
    }
  }

  lemma NotRevivableStays(r: Run, c: Change)
    requires !Revivable(r) && !c.Restart? && !c.Rearm?
    ensures !Revivable(After(r, c))
  {
  }
}
