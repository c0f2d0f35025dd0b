/** Runs of the store, from the empty one, in which the guards of the other modules fail. */
module RunExamples {
  import opened EventStream
  import opened RunLife
  import opened RunStore
  import opened Writers

  /** Looking at a saved run that was waiting makes it active beside the running one. */
  lemma RearmedBesideRunning(s: Store, session: string, a: string, b: string, kind: Kind)
    requires Empty(s) && a != b
    ensures !OneWriter(DoAll(s, [DoCreate(session, a)] + ([DoRearm(session, b, true, kind)] + [])))
  {
    var one := Do(s, DoCreate(session, a));
    var two := Do(one, DoRearm(session, b, true, kind));
    FirstStep(s, DoCreate(session, a), [DoRearm(session, b, true, kind)] + []);
    FirstStep(one, DoRearm(session, b, true, kind), []);
    NoStep(two);
    StartAdds(s, session, a, SUPERSEDED_BY_NEW);
    HydratedIsRearmed(one, session, b, kind);
    TwoActive(two, 0, 1);
  }

  lemma SupersededWait(session: string, id: string)
    ensures var r := Superseded(Rearmed(Born(session, id, true, Idle), ForApproval), SUPERSEDED_BY_NEW);
            Over(r) && r.watcher == Waiting(ForApproval) && r.session == session && r.id == id
  {
  }

  /** A superseded run whose re-armed approval is granted late is active again. */
  lemma LateApprovalRevives(s: Store, session: string, a: string, b: string)
    requires Empty(s) && a != b
    ensures var two := DoAll(s, [DoRearm(session, b, true, ForApproval)] + ([DoCreate(session, a)] + []));
            && |two.runs| == 2 && Over(two.runs[0])
            && !OneWriter(DoAll(two, [DoAnswer(b, ForApproval, Approved)] + ([DoEnv(0, Wake(true))] + [])))
  {
    var one := Do(s, DoRearm(session, b, true, ForApproval));
    var two := Do(one, DoCreate(session, a));
    FirstStep(s, DoRearm(session, b, true, ForApproval), [DoCreate(session, a)] + []);
    FirstStep(one, DoCreate(session, a), []);
    NoStep(two);
    HydratedIsRearmed(s, session, b, ForApproval);
    StartAdds(one, session, a, SUPERSEDED_BY_NEW);
    assert Tabled(one, 0);
    SupersededWait(session, b);
    GrantedLate(two, a, b);
  }

  lemma GrantWakes(r: Run)
    requires r.watcher == Waiting(ForApproval)
    ensures var t := After(After(r, Answer(ForApproval, Approved)), Wake(true)); IsActive(t) && t.session == r.session
  {
  }

  lemma GrantedLate(two: Store, a: string, b: string)
    requires WellFormed(two) && a != b && |two.runs| == 2 && b in two.table && two.table[b] == 0
    requires two.runs[0].watcher == Waiting(ForApproval)
    requires IsActive(two.runs[1]) && two.runs[1].session == two.runs[0].session
    ensures !OneWriter(DoAll(two, [DoAnswer(b, ForApproval, Approved)] + ([DoEnv(0, Wake(true))] + [])))
  {
    var three := Do(two, DoAnswer(b, ForApproval, Approved));
    var four := Do(three, DoEnv(0, Wake(true)));
    FirstStep(two, DoAnswer(b, ForApproval, Approved), [DoEnv(0, Wake(true))] + []);
    FirstStep(three, DoEnv(0, Wake(true)), []);
    NoStep(four);
    assert three == Apply(two, 0, Answer(ForApproval, Approved)) && four == Apply(three, 0, Wake(true));
    GrantWakes(two.runs[0]);
    TwoActive(four, 0, 1);
  }

  lemma TakenOverIdIsLost(s: Store, one: string, two: string, id: string, next: string)
    requires Empty(s) && one != two && id != next
    ensures !OneWriter(DoAll(s, [DoCreate(one, id)] + ([DoCreate(two, id)] + ([DoCreate(one, next)] + []))))
  {
    var x, y, z := DoCreate(one, id), DoCreate(two, id), DoCreate(one, next);
    var first := Do(s, x);
    var second := Do(first, y);
    FirstStep(s, x, [y] + ([z] + []));
    FirstStep(first, y, [z] + []);
    FirstStep(second, z, []);
    NoStep(Do(second, z));
    StartAdds(s, one, id, SUPERSEDED_BY_NEW);
    StartAdds(first, two, id, SUPERSEDED_BY_NEW);
    StartAdds(second, one, next, SUPERSEDED_BY_NEW);
    assert !Tabled(second, 0);
    TwoActive(Do(second, z), 0, 2);
  }

  lemma ContinuedBesideRunning(s: Store, session: string, a: string, b: string, attached: bool)
    requires Empty(s) && a != b
    ensures !OneWriter(DoAll(s, [DoCreate(session, a)] + ([DoCreate(session, b)] + ([DoContinue(session, a, false, attached)] + []))))
  {
    var x, y, z := DoCreate(session, a), DoCreate(session, b), DoContinue(session, a, false, attached);
    var first := Do(s, x);
    var second := Do(first, y);
    FirstStep(s, x, [y] + ([z] + []));
    FirstStep(first, y, [z] + []);
    FirstStep(second, z, []);
    NoStep(Do(second, z));
    StartAdds(s, session, a, SUPERSEDED_BY_NEW);
    StartAdds(first, session, b, SUPERSEDED_BY_NEW);
    assert Tabled(first, 0);
    assert Do(second, z) == Apply(second, 0, Restart(attached));
    TwoActive(Do(second, z), 0, 1);
  }

  lemma FourSteps(s: Store, x: Op, y: Op, z: Op, w: Op)
    requires WellFormed(s)
    ensures DoAll(s, [x] + ([y] + ([z] + ([w] + [])))) == Do(Do(Do(Do(s, x), y), z), w)
  {
    var one := Do(s, x);
    var two := Do(one, y);
    var three := Do(two, z);
    FirstStep(s, x, [y] + ([z] + ([w] + [])));
    FirstStep(one, y, [z] + ([w] + []));
    FirstStep(two, z, [w] + []);
    FirstStep(three, w, []);
    NoStep(Do(three, w));
  }

  lemma StoppedAndContinued(two: Store, session: string, a: string, attached: bool)
    requires |two.runs| == 2 && WellFormed(two) && a in two.table && two.table[a] == 1
    requires two.runs[1] == Born(session, a, false, Running) && !IsActive(two.runs[0])
    ensures var four := Do(Do(two, DoCancel(a)), DoContinue(session, a, false, attached));
            && |four.runs| == 2 && four.runs[0] == two.runs[0] && four.table == two.table
            && IsActive(four.runs[1]) && four.runs[1].session == session && OneWriter(four)
  {
    var three := Do(two, DoCancel(a));
    assert three == Apply(two, 1, Stop);
    assert Do(three, DoContinue(session, a, false, attached)) == Apply(three, 1, Restart(attached));
  }

  /** Continuing a run while a superseded one of its session still waits for an approval: there
      is one writer, until the approval is granted. */
  lemma ContinuedBesideWatched(s: Store, session: string, a: string, b: string, attached: bool)
    requires Empty(s) && a != b
    ensures var end := DoAll(s, [DoRearm(session, b, true, ForApproval)] + ([DoCreate(session, a)] +
                                ([DoCancel(a)] + ([DoContinue(session, a, false, attached)] + []))));
            OneWriter(end) && !OneWriter(DoAll(end, [DoAnswer(b, ForApproval, Approved)] + ([DoEnv(0, Wake(true))] + [])))
  {
    var x, y, z, w := DoRearm(session, b, true, ForApproval), DoCreate(session, a), DoCancel(a), DoContinue(session, a, false, attached);
    FourSteps(s, x, y, z, w);
    var two := Do(Do(s, x), y);
    SupersededWatch(s, session, a, b);
    StoppedAndContinued(two, session, a, attached);
    GrantedLate(Do(Do(two, z), w), a, b);
  }

  lemma SupersededWatch(s: Store, session: string, a: string, b: string)
    requires Empty(s) && a != b
    ensures var two := Do(Do(s, DoRearm(session, b, true, ForApproval)), DoCreate(session, a));
            && |two.runs| == 2 && two.table == map[b := 0, a := 1]
            && Over(two.runs[0]) && two.runs[0].watcher == Waiting(ForApproval) && two.runs[0].id == b
            && two.runs[0].session == session && two.runs[1] == Born(session, a, false, Running)
  {
    var one := Do(s, DoRearm(session, b, true, ForApproval));
    HydratedIsRearmed(s, session, b, ForApproval);
    StartAdds(one, session, a, SUPERSEDED_BY_NEW);
    assert Tabled(one, 0);
    SupersededWait(session, b);
  }

  lemma Launching(s: Store, session: string, id: string)
    requires Empty(s)
    ensures var two := Do(Do(s, DoCreate(session, id)), DoEnv(0, Launch));
            && two.runs == [Born(session, id, false, Running).(task := Live)] && two.table == map[id := 0]
  {
    StartAdds(s, session, id, SUPERSEDED_BY_NEW);
  }

  /** Cancelling a run whose loop is live leaves two "cancelled" events without a continue. */
  lemma LiveLoopCancelsAgain(s: Store, session: string, id: string)
    requires Empty(s)
    ensures var ops := [DoCreate(session, id)] + ([DoEnv(0, Launch)] + ([DoCancel(id)] + ([DoEnv(0, Unwind(false, true))] + [])));
            |DoAll(s, ops).runs| == 1 && Cancels(DoAll(s, ops).runs[0]) == 2
  {
    var x, y, z, w := DoCreate(session, id), DoEnv(0, Launch), DoCancel(id), DoEnv(0, Unwind(false, true));
    FourSteps(s, x, y, z, w);
    var two := Do(Do(s, x), y);
    var three := Do(two, z);
    Launching(s, session, id);
    StopThenUnwind(two.runs[0]);
    assert three == Apply(two, 0, Stop) && Do(three, w) == Apply(three, 0, Unwind(false, true));
  }

  lemma StopThenUnwind(r: Run)
    requires !Over(r) && r.task.Live?
    ensures Cancels(After(After(r, Stop), Unwind(false, true))) == Cancels(r) + 2
  {
    CountAppended(r.events, CANCELLED, "user_stop", CANCELLED);
    ConclusionCounts(After(r, Stop), Unwind(false, true));
  }

  lemma StallThenUnwind(r: Run)
    requires r.status.Running? && r.task.Live?
    ensures After(r, Stall).status == Failed && After(After(r, Stall), Unwind(false, true)).status == Cancelled
  {
  }

  /** A stalled run fails, and its loop then makes a cancelled one of it. */
  lemma StallEndsCancelled(s: Store, session: string, id: string)
    requires Empty(s)
    ensures var stalled := DoAll(s, [DoCreate(session, id)] + ([DoEnv(0, Launch)] + ([DoEnv(0, Stall)] + [])));
            && |stalled.runs| == 1 && stalled.runs[0].status == Failed
            && Do(stalled, DoEnv(0, Unwind(false, true))).runs[0].status == Cancelled
  {
    var x, y, z := DoCreate(session, id), DoEnv(0, Launch), DoEnv(0, Stall);
    var one := Do(s, x);
    var two := Do(one, y);
    FirstStep(s, x, [y] + ([z] + []));
    FirstStep(one, y, [z] + []);
    FirstStep(two, z, []);
    NoStep(Do(two, z));
    Launching(s, session, id);
    assert Do(two, z) == Apply(two, 0, Stall);
    StallThenUnwind(two.runs[0]);
  }
}
