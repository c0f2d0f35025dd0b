/** The session store as an object with its table of run objects. Each method does what
    `RunStore` says of the store's value. */
module SessionStores {
  import opened Wrappers
  import opened EventStream
  import opened RunLife
  import opened AgentRuns
  import opened RunStore

  class SessionStore {
    var runs: map<string, AgentRun>
    var latest: map<string, string>
    /** Every run object made so far, and where the table's runs are among them. */
    ghost var born: seq<AgentRun>
    ghost var places: map<string, nat>

    ghost predicate Valid()
      reads this, born
    {
      && (forall i | 0 <= i < |born| :: born[i].Valid())
      && (forall i, j | 0 <= i < j < |born| :: born[i] != born[j])
      && places.Keys == runs.Keys
      && (forall id | id in places :: places[id] < |born| && born[places[id]] == runs[id] && runs[id].runId == id)
    }

    ghost function Model(): Store
      reads this, born
    {
      Store(seq(|born|, i requires 0 <= i < |born| reads this, born => born[i].State()), places, latest)
    }

    constructor ()
      ensures Valid() && Model() == Store([], map[], map[])
    {
      runs, latest, born, places := map[], map[], [], map[];
    }

    ghost function Replaced(s: Store, at: nat, r: Run): Store
      requires at < |s.runs|
    {
      s.(runs := s.runs[at := r])
    }

    /** Work on one run object shows in the model at its place and nowhere else. */
    twostate lemma OneRunChanged(at: nat)
      requires old(Valid()) && at < |born| && born[at].Valid()
      requires runs == old(runs) && latest == old(latest) && born == old(born) && places == old(places)
      requires forall i | 0 <= i < |born| && i != at :: unchanged(born[i])
      requires born[at].runId == old(born[at].runId)
      ensures Valid() && Model() == Replaced(old(Model()), at, born[at].State())
    {
      assert Model().runs == Replaced(old(Model()), at, born[at].State()).runs;
    }

    twostate lemma NoRunChanged()
      requires old(Valid()) && unchanged(this) && forall i | 0 <= i < |born| :: unchanged(born[i])
      ensures Valid() && Model() == old(Model())
    {
      assert Model().runs == old(Model()).runs;
    }

    /** One round of the loop over the table's runs. */
    method VisitRun(id: string, session: string, reason: string)
      requires Valid() && id in runs
      modifies runs[id]
      ensures Valid()
      ensures var s, at := old(Model()), places[id];
              Model() == if s.runs[at].session == session then Apply(s, at, Supersede(reason)) else s
    {
      assert Model().runs[places[id]] == runs[id].State();
      if runs[id].sessionId == session {
        runs[id].Supersede(reason);
        OneRunChanged(places[id]);
      }
    }

    /** The runs of the session have been visited, but for those in `todo`. */
    ghost predicate Visiting(before: Store, session: string, reason: string, todo: set<string>)
      reads this, born
    {
      && Valid() && todo <= runs.Keys
      && WellFormed(before) && before.table == places && Model() == CancelledBut(before, session, reason, todo)
    }

    /** The same round, seen from the start of the loop. */
    method VisitNext(ghost before: Store, session: string, reason: string, ghost todo: set<string>, id: string)
      requires Visiting(before, session, reason, todo) && id in todo
      modifies born
      ensures Visiting(before, session, reason, todo - {id})
    {
      ghost var now := Model();
      VisitRun(id, session, reason);
      CancelOneMore(before, now, session, reason, todo, id);
    }

    lemma VisitingStarts(session: string, reason: string)
      requires Valid()
      ensures Visiting(Model(), session, reason, runs.Keys)
    {
      NoneCancelledYet(Model(), session, reason);
    }

    lemma VisitingEnds(before: Store, session: string, reason: string)
      requires Visiting(before, session, reason, {})
      ensures Valid() && Model() == CancelOthers(before, session, reason)
    {
      AllCancelled(before, session, reason);
    }

    method CancelOtherRuns(session: string, reason: string)
      requires Valid()
      modifies born
      ensures Valid() && Model() == CancelOthers(old(Model()), session, reason)
      ensures forall id | id in runs ::
                if runs[id].sessionId == session && old(Busy(runs[id].status))
                then runs[id].status == Cancelled && runs[id].cancelRequested
                else runs[id].State() == old(runs[id].State())
    {
      ghost var before := Model();
      VisitAll(session, reason);
      forall id | id in runs
        ensures if runs[id].sessionId == session && old(Busy(runs[id].status))
                then runs[id].status == Cancelled && runs[id].cancelRequested
                else runs[id].State() == old(runs[id].State())
      {
        assert Model().runs[places[id]] == runs[id].State() && before.runs[places[id]] == old(runs[id].State());
        SupersedingCancels(before.runs[places[id]], reason);
      }
    }

    method VisitAll(session: string, reason: string)
      requires Valid()
      modifies born
      ensures Valid() && Model() == CancelOthers(old(Model()), session, reason)
    {
      ghost var before := Model();
      var todo := runs.Keys;
      VisitingStarts(session, reason);
      while todo != {}
        invariant Visiting(before, session, reason, todo)
        decreases todo
      {
        var id :| id in todo;
        VisitNext(before, session, reason, todo, id);
        todo := todo - {id};
      }
      VisitingEnds(before, session, reason);
    }

    /** The run that `get_session_run` finds. */
    method GetSessionRun(session: string) returns (run: Option<AgentRun>)
      ensures run == if session in latest && latest[session] in runs then Some(runs[latest[session]]) else None
    {
      if session !in latest || latest[session] !in runs {
        return None;
      }
      run := Some(runs[latest[session]]);
    }

    /** `self._runs[rid] = run`, which may take the id over from another run. */
    method AddRun(session: string, id: string, hydrated: bool, status: Status) returns (run: AgentRun)
      requires Valid()
      modifies this
      ensures Valid() && fresh(run) && run.State() == Born(session, id, hydrated, status) && run.Pending() == {}
      ensures born == old(born) + [run] && id in runs && runs[id] == run
      ensures runs == old(runs)[id := run] && latest == old(latest)[session := id]
      ensures Model() == Added(old(Model()), Born(session, id, hydrated, status))
    {
      ghost var before := Model();
      run := new AgentRun(session, id, hydrated, status);
      Enter(run);
      assert Model().runs == before.runs + [run.State()];
    }

    method Enter(run: AgentRun)
      requires Valid() && run.Valid() && run !in born
      modifies this
      ensures Valid() && born == old(born) + [run] && runs == old(runs)[run.runId := run]
      ensures places == old(places)[run.runId := |old(born)|] && latest == old(latest)[run.sessionId := run.runId]
    {
      runs := runs[run.runId := run];
      places := places[run.runId := |born|];
      latest := latest[run.sessionId := run.runId];
      born := born + [run];
    }

    method CreateRun(session: string, id: string) returns (run: AgentRun)
      requires Valid()
      modifies this, born
      ensures Valid() && fresh(run) && run.events == []
      ensures born == old(born) + [run] && Model() == Create(old(Model()), session, id)
      ensures runs == old(runs)[id := run] && latest == old(latest)[session := id]
      ensures run.sessionId == session && run.runId == id && run.status == Running && !run.cancelRequested
      ensures forall k | k in old(runs) && old(runs)[k].sessionId == session ::
                old(runs)[k].status !in {Running, WaitingTool, WaitingUser, WaitingApproval}
    {
      CancelOtherRuns(session, SUPERSEDED_BY_NEW);
      run := AddRun(session, id, false, Running);
    }

    /** With no log to start from, nothing at all is changed. */
    method CreateRunResuming(session: string, resumeId: string, onDisk: bool, id: string) returns (run: Option<AgentRun>)
      requires Valid()
      modifies this, born
      ensures Valid() && Model() == ResumeFrom(old(Model()), session, resumeId, onDisk, id)
      ensures run.None? <==> resumeId !in old(runs) && !onDisk
      ensures run.None? ==> born == old(born) && runs == old(runs) && forall r | r in born :: unchanged(r)
      ensures run.Some? ==> fresh(run.value) && run.value.events == []
      ensures run.Some? ==> runs == old(runs)[id := run.value] && latest == old(latest)[session := id]
      ensures run.Some? ==> run.value.sessionId == session && run.value.status == Running && !run.value.cancelRequested
      ensures run.Some? ==> forall k | k in old(runs) && old(runs)[k].sessionId == session ::
                old(runs)[k].status !in {Running, WaitingTool, WaitingUser, WaitingApproval}
    {
      if resumeId !in runs && !onDisk {
        return None;
      }
      CancelOtherRuns(session, SUPERSEDED_BY_RESUME);
      var made := AddRun(session, id, false, Running);
      run := Some(made);
    }

    method HydrateRunFromDisk(session: string, id: string, onDisk: bool) returns (run: Option<AgentRun>)
      requires Valid()
      modifies this
      ensures Valid() && Model() == Hydrate(old(Model()), session, id, onDisk)
      ensures run == if id in runs then Some(runs[id]) else None
      ensures id in old(runs) ==> id in runs && runs[id] == old(runs)[id]
      ensures id !in old(runs) && id in runs ==> fresh(runs[id]) && Rearmable(runs[id].State()) && runs[id].Pending() == {}
      ensures id in runs <==> id in old(runs) || onDisk
      ensures id in old(runs) || !onDisk ==> unchanged(this)
      ensures id !in old(runs) && onDisk ==>
                runs[id].sessionId == session && runs[id].status == Idle && latest == old(latest)[session := id]
    {
      if id in runs {
        return Some(runs[id]);
      }
      if !onDisk {
        return None;
      }
      var made := AddRun(session, id, true, Idle);
      run := Some(made);
    }

    /** The second half of the method below, for a run that the table has. */
    method RearmTabled(id: string, kind: Kind) returns (armed: bool)
      requires Valid() && id in runs && runs[id].hydrated && !IsWaiting(runs[id].status)
      modifies runs[id]
      ensures Valid() && Model() == if armed then Apply(old(Model()), places[id], Rearm(kind)) else old(Model())
      ensures armed <==> old(runs[id].Pending()) == {}
      ensures armed ==> runs[id].status in {WaitingTool, WaitingUser, WaitingApproval} && runs[id].Slot(kind).Some?
    {
      ghost var at, was := places[id], runs[id].State();
      assert Model().runs[at] == was;
      armed := runs[id].RearmWait(kind);
      if armed {
        assert runs[id].State() == After(was, Rearm(kind));
        OneRunChanged(at);
      } else {
        NoRunChanged();
      }
    }

    /** What the endpoints do that look a run up by its id: load it if need be, and take up the
        request that it was waiting for when it was saved. No other run is looked at. */
    method HydrateAndRearm(session: string, id: string, onDisk: bool, kind: Kind) returns (armed: bool)
      requires Valid()
      modifies this, if id in runs then {runs[id]} else {}
      ensures Valid()
      ensures Model() == if armed then RearmRun(old(Model()), session, id, onDisk, kind)
                         else Hydrate(old(Model()), session, id, onDisk)
      ensures armed <==>
                if id in old(runs)
                then old(runs)[id].hydrated && old(runs[id].Pending() == {} && runs[id].status !in {WaitingTool, WaitingUser, WaitingApproval})
                else onDisk
      ensures armed ==> id in runs && runs[id].status in {WaitingTool, WaitingUser, WaitingApproval} && runs[id].Slot(kind).Some?
    {
      var run := HydrateRunFromDisk(session, id, onDisk);
      armed := false;
      if run.Some? && run.value.hydrated && !IsWaiting(run.value.status) {
        armed := RearmTabled(id, kind);
      }
    }

    /** Only the run in the table under that id is touched, with the requests it waits for. */
    method CancelRun(id: string) returns (run: Option<AgentRun>)
      requires Valid()
      modifies if id in runs then {runs[id]} else {}
      modifies if id in runs then runs[id].Pending() else {}
      ensures Valid() && Model() == Cancel(old(Model()), id)
      ensures run == if id in runs then Some(runs[id]) else None
      ensures id in runs ==> runs[id].Pending() == {} && forall f | f in old(runs[id].Pending()) :: f.done
      ensures id in runs ==> runs[id].status in {Completed, Failed, Cancelled} && runs[id].cancelRequested
    {
      if id !in runs {
        return None;
      }
      runs[id].Stop();
      OneRunChanged(places[id]);
      run := Some(runs[id]);
    }

    /** An answer from the host goes to the run under that id, if there is one in the session
        and it has such a request. */
    method AnswerRun(session: string, id: string, kind: Kind, reply: Reply) returns (ok: bool)
      requires Valid() && (reply == Plain || (reply == Approved && kind == ForApproval))
      modifies if id in runs then {runs[id]} else {}
      modifies if id in runs then runs[id].Pending() else {}
      ensures Valid() && Model() == if ok then ApplyTo(old(Model()), id, Answer(kind, reply)) else old(Model())
      ensures ok <==> id in runs && runs[id].sessionId == session &&
                      old(id in runs && runs[id].Slot(kind).Some? && !runs[id].Slot(kind).value.done)
    {
      if id !in runs || runs[id].sessionId != session {
        return false;
      }
      ok := DeliverTo(id, kind, reply);
    }

    method DeliverTo(id: string, kind: Kind, reply: Reply) returns (ok: bool)
      requires Valid() && id in runs && (reply == Plain || (reply == Approved && kind == ForApproval))
      modifies runs[id], runs[id].Pending()
      ensures Valid() && Model() == if ok then Apply(old(Model()), places[id], Answer(kind, reply)) else old(Model())
      ensures ok <==> old(runs[id].Slot(kind).Some? && !runs[id].Slot(kind).value.done)
    {
      ghost var at, was := places[id], runs[id].State();
      assert Model().runs[at] == was;
      ok := runs[id].Deliver(kind, reply);
      if ok {
        assert runs[id].State() == After(was, Answer(kind, reply));
        OneRunChanged(at);
      } else {
        NoRunChanged();
      }
    }

    /** The continue endpoint: load the run if need be, refuse a foreign or an active one. */
    method ContinueRun(session: string, id: string, onDisk: bool, attached: bool) returns (run: Option<AgentRun>)
      requires Valid()
      modifies this, if id in runs then {runs[id]} else {}
      ensures Valid() && Model() == Continue(old(Model()), session, id, onDisk, attached)
      ensures run.Some? <==> Continuable(Hydrate(old(Model()), session, id, onDisk), session, id)
      ensures run.Some? ==> id in runs && run.value == runs[id] && IsActive(run.value.State())
      ensures run.Some? <==>
                if id in old(runs)
                then old(runs)[id].sessionId == session
                     && old(runs[id].status) !in {Running, WaitingTool, WaitingUser, WaitingApproval}
                else onDisk
      ensures run.Some? ==> run.value.sessionId == session && run.value.status == Running && !run.value.cancelRequested
      ensures run.None? ==> unchanged(this) && (id in runs ==> unchanged(runs[id]))
    {
      run := HydrateRunFromDisk(session, id, onDisk);
      if run.None? || run.value.sessionId != session || Active(run.value.status) {
        return None;
      }
      RestartTabled(id, attached);
    }

    method RestartTabled(id: string, attached: bool)
      requires Valid() && id in runs && !Active(runs[id].status)
      modifies runs[id]
      ensures Valid() && Model() == Apply(old(Model()), places[id], Restart(attached))
      ensures runs[id].status == Running && !runs[id].cancelRequested
    {
      ghost var at, was := places[id], runs[id].State();
      assert Model().runs[at] == was;
      runs[id].Restart(attached);
      assert runs[id].State() == After(was, Restart(attached));
      OneRunChanged(at);
    }
  }

  /** Half-way through the loop: the runs under the ids `todo` have not been visited. */
  ghost function CancelledBut(s: Store, session: string, reason: string, todo: set<string>): Store {
    s.(runs := seq(|s.runs|, i requires 0 <= i < |s.runs| =>
         if Tabled(s, i) && s.runs[i].session == session && s.runs[i].id !in todo then Superseded(s.runs[i], reason) else s.runs[i]))
  }

  lemma NoneCancelledYet(s: Store, session: string, reason: string)
    requires WellFormed(s)
    ensures CancelledBut(s, session, reason, s.table.Keys) == s
  {
    assert CancelledBut(s, session, reason, s.table.Keys).runs == s.runs;
  }

  lemma AllCancelled(s: Store, session: string, reason: string)
    ensures CancelledBut(s, session, reason, {}) == CancelOthers(s, session, reason)
  {
    assert CancelledBut(s, session, reason, {}).runs == CancelOthers(s, session, reason).runs;
  }

  lemma CancelOneMore(s: Store, now: Store, session: string, reason: string, todo: set<string>, id: string)
    requires WellFormed(s) && id in todo && id in s.table && now == CancelledBut(s, session, reason, todo)
    ensures var at := now.table[id];
            CancelledBut(s, session, reason, todo - {id}) ==
            if now.runs[at].session == session then Apply(now, at, Supersede(reason)) else now
  {
    var at, next := s.table[id], CancelledBut(s, session, reason, todo - {id});
    assert now.runs[at] == s.runs[at];
    assert forall i | 0 <= i < |s.runs| && Tabled(s, i) && s.runs[i].id == id :: i == at;
    if s.runs[at].session == session {
      assert next.runs == Apply(now, at, Supersede(reason)).runs;
    } else {
      assert next.runs == now.runs;
    }
  }
}
