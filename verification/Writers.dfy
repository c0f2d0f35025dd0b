/** How many runs may write to a session at the same time, and what each operation needs so that
    it stays at one. */
module Writers {
  import opened RunLife
  import opened RunStore

  /** No session has two active runs, counting every run object there is. */
  predicate OneWriter(s: Store) {
    forall i, j | 0 <= i < j < |s.runs| :: IsActive(s.runs[i]) && IsActive(s.runs[j]) ==> s.runs[i].session != s.runs[j].session
  }

  /** Only hosts, loops, watchers and tasks are at work. */
  predicate NoEndpoints(ops: seq<Op>) { forall op | op in ops :: op.DoAnswer? || op.DoEnv? }

  /** No session ever gets two active runs, as long as nobody calls an endpoint but to answer. */
  ghost predicate StaysSingle(s: Store)
    requires WellFormed(s)
  {
    forall ops | NoEndpoints(ops) :: OneWriter(DoAll(s, ops))
  }

  /** The run is active or can become so on its own. Answers reach only runs in the table. */
  predicate CanWrite(s: Store, i: nat)
    requires i < |s.runs|
  {
    if Tabled(s, i) then MayWrite(s.runs[i]) else WritesUnreached(s.runs[i])
  }

  predicate WritersApart(s: Store) {
    forall i, j | 0 <= i < j < |s.runs| :: CanWrite(s, i) && CanWrite(s, j) ==> s.runs[i].session != s.runs[j].session
  }

  lemma AppliedElsewhere(s: Store, at: nat, c: Change, i: nat)
    requires at < |s.runs| && i < |s.runs|
    ensures Tabled(Apply(s, at, c), i) <==> Tabled(s, i)
    ensures Apply(s, at, c).runs[i].session == s.runs[i].session
    ensures i != at ==> (CanWrite(Apply(s, at, c), i) <==> CanWrite(s, i))
  {
    AfterKeepsId(s.runs[at], c);
  }

  /** A change that a run undergoes without an endpoint, or by an answer or a cancel that finds it. */
  predicate Reaches(s: Store, i: nat, c: Change) {
    i < |s.runs| && !c.Restart? && !c.Rearm? && (FromOutside(c) || Tabled(s, i))
  }

  lemma CanWriteShrinks(s: Store, at: nat, c: Change, i: nat)
    requires Reaches(s, at, c) && i < |s.runs|
    ensures CanWrite(Apply(s, at, c), i) ==> CanWrite(s, i)
  {
    AppliedElsewhere(s, at, c, i);
    if i == at {
      MayWriteShrinks(s.runs[at], c);
      if FromOutside(c) { WritesUnreachedShrinks(s.runs[at], c); }
    }
  }

  lemma ReachKeepsApart(s: Store, at: nat, c: Change)
    requires Reaches(s, at, c) && WritersApart(s)
    ensures WritersApart(Apply(s, at, c))
  {
    var end := Apply(s, at, c);
    forall i, j | 0 <= i < j < |end.runs| && CanWrite(end, i) && CanWrite(end, j)
      ensures end.runs[i].session != end.runs[j].session
    {
      CanWriteShrinks(s, at, c, i);
      CanWriteShrinks(s, at, c, j);
      AppliedElsewhere(s, at, c, i);
      AppliedElsewhere(s, at, c, j);
    }
  }

  lemma {:induction false} ApartStaysSingle(s: Store, ops: seq<Op>)
    requires WellFormed(s) && WritersApart(s) && NoEndpoints(ops)
    ensures OneWriter(DoAll(s, ops))
    decreases |ops|
  {
    if ops == [] {
      ApartHasOneWriter(s);
    } else {
      assert ops[0] in ops;
      match ops[0] {
        case DoAnswer(id, kind, reply) => if id in s.table { ReachKeepsApart(s, s.table[id], Answer(kind, reply)); }
        case DoEnv(i, c) => if i < |s.runs| && FromOutside(c) { ReachKeepsApart(s, i, c); }
      }
      ApartStaysSingle(Do(s, ops[0]), ops[1..]);
    }
  }

  lemma ApartHasOneWriter(s: Store)
    requires WritersApart(s)
    ensures OneWriter(s)
  {
    forall i, j | 0 <= i < j < |s.runs| && IsActive(s.runs[i]) && IsActive(s.runs[j])
      ensures s.runs[i].session != s.runs[j].session
    {
      assert CanWrite(s, i) && CanWrite(s, j);
    }
  }

  lemma TwoActive(s: Store, i: nat, j: nat)
    requires i < j < |s.runs| && IsActive(s.runs[i]) && IsActive(s.runs[j]) && s.runs[i].session == s.runs[j].session
    ensures !OneWriter(s)
  {
  }

  /** What makes the run active, if it is not already. */
  function LifeOf(r: Run): seq<Change> { if IsActive(r) then [] else Revival(r) }

  lemma ComesToLife(s: Store, i: nat)
    requires WellFormed(s) && i < |s.runs| && CanWrite(s, i)
    ensures var r, ops := s.runs[i], OpsFor(i, s.runs[i].id, LifeOf(s.runs[i]));
            var t := AfterAll(r, LifeOf(r));
            && NoEndpoints(ops) && DoAll(s, ops) == s.(runs := s.runs[i := t])
            && IsActive(t) && t.session == r.session && t.id == r.id
  {
    var r := s.runs[i];
    AfterAllKeepsId(r, LifeOf(r));
    if !IsActive(r) {
      RevivalRevives(r);
      RevivalNeedsNoEndpoints(i, r);
    }
    OpsForDo(s, i, LifeOf(r));
  }

  lemma {:induction false} DoAllJoins(s: Store, a: seq<Op>, b: seq<Op>)
    requires WellFormed(s)
    ensures DoAll(s, a + b) == DoAll(DoAll(s, a), b)
    decreases |a|
  {
    if a == [] {
      assert a + b == b;
    } else {
      assert (a + b)[1..] == a[1..] + b;
      DoAllJoins(Do(s, a[0]), a[1..], b);
    }
  }

  lemma BothComeToLife(s: Store, i: nat, j: nat)
    requires WellFormed(s) && i < j < |s.runs| && CanWrite(s, i) && CanWrite(s, j)
    requires s.runs[i].session == s.runs[j].session
    ensures !StaysSingle(s)
  {
    var one := OpsFor(i, s.runs[i].id, LifeOf(s.runs[i]));
    ComesToLife(s, i);
    var mid := DoAll(s, one);
    assert Tabled(mid, j) <==> Tabled(s, j);
    var two := OpsFor(j, mid.runs[j].id, LifeOf(mid.runs[j]));
    ComesToLife(mid, j);
    DoAllJoins(s, one, two);
    TwoActive(DoAll(s, one + two), i, j);
  }

  /** A session never gets a second writer on its own exactly when none of its runs but one is
      active or can become so. */
  lemma StaysSingleMeansApart(s: Store)
    requires WellFormed(s)
    ensures StaysSingle(s) <==> WritersApart(s)
  {
    if WritersApart(s) {
      forall ops | NoEndpoints(ops) ensures OneWriter(DoAll(s, ops)) {
        ApartStaysSingle(s, ops);
      }
    } else {
      var i, j :| 0 <= i < j < |s.runs| && CanWrite(s, i) && CanWrite(s, j) && s.runs[i].session == s.runs[j].session;
      BothComeToLife(s, i, j);
    }
  }

  // ---- What each operation needs ----

  /** What a new run of the session under that id does not put an end to. */
  predicate Outlasts(s: Store, i: nat, id: string)
    requires i < |s.runs|
  {
    var r := s.runs[i];
    if !Tabled(s, i) then WritesUnreached(r) else if r.id == id then EscapesUnreached(r) else Escapes(r)
  }

  predicate NoneOutlasts(s: Store, session: string, id: string) {
    forall i | 0 <= i < |s.runs| && s.runs[i].session == session :: !Outlasts(s, i, id)
  }

  lemma StartedBeside(s: Store, session: string, id: string, reason: string, i: nat)
    requires WellFormed(s) && i < |s.runs|
    ensures var end := Start(s, session, id, reason);
            && |end.runs| == |s.runs| + 1 && end.runs[i].session == s.runs[i].session
            && (s.runs[i].session == session ==> (CanWrite(end, i) <==> Outlasts(s, i, id)))
            && (s.runs[i].session != session ==> (CanWrite(end, i) ==> CanWrite(s, i)))
  {
    StartAdds(s, session, id, reason);
    EscapesMeansRevivable(s.runs[i], reason);
    AfterKeepsId(s.runs[i], Supersede(reason));
    assert Tabled(Start(s, session, id, reason), i) <==> Tabled(s, i) && s.runs[i].id != id;
  }

  lemma NewRunWrites(s: Store, session: string, id: string, reason: string)
    requires WellFormed(s)
    ensures var end, n := Start(s, session, id, reason), |s.runs|;
            |end.runs| == n + 1 && end.runs[n].session == session && CanWrite(end, n) && Tabled(end, n)
  {
    StartAdds(s, session, id, reason);
  }

  lemma StartIsApart(s: Store, session: string, id: string, reason: string)
    requires WellFormed(s) && WritersApart(s)
    ensures WritersApart(Start(s, session, id, reason)) <==> NoneOutlasts(s, session, id)
  {
    var end, n := Start(s, session, id, reason), |s.runs|;
    NewRunWrites(s, session, id, reason);
    if NoneOutlasts(s, session, id) {
      forall i, j | 0 <= i < j < |end.runs| && CanWrite(end, i) && CanWrite(end, j)
        ensures end.runs[i].session != end.runs[j].session
      {
        StartedBeside(s, session, id, reason, i);
        if j < n { StartedBeside(s, session, id, reason, j); }
      }
    } else {
      var i :| 0 <= i < n && s.runs[i].session == session && Outlasts(s, i, id);
      StartedBeside(s, session, id, reason, i);
    }
  }

  /** A new run stays the only writer of its session, whatever hosts and loops do, exactly when
      no run of the session has a watcher or a loop that survives being superseded. */
  lemma SupersedeNeedsNoWatcher(s: Store, session: string, id: string, reason: string)
    requires WellFormed(s) && StaysSingle(s)
    ensures StaysSingle(Start(s, session, id, reason)) <==> NoneOutlasts(s, session, id)
  {
    StaysSingleMeansApart(s);
    StartIsApart(s, session, id, reason);
    StaysSingleMeansApart(Start(s, session, id, reason));
  }

  /** No other run of the session is active or can become so on its own. */
  predicate Alone(s: Store, at: nat)
    requires at < |s.runs|
  {
    forall i | 0 <= i < |s.runs| && i != at :: CanWrite(s, i) ==> s.runs[i].session != s.runs[at].session
  }

  /** No other run of the session is active now. */
  predicate OthersInactive(s: Store, at: nat)
    requires at < |s.runs|
  {
    forall i | 0 <= i < |s.runs| && i != at :: IsActive(s.runs[i]) ==> s.runs[i].session != s.runs[at].session
  }

  lemma ChangeBesideOthers(s: Store, at: nat, c: Change)
    requires at < |s.runs| && WritersApart(s) && (CanWrite(Apply(s, at, c), at) ==> Alone(s, at))
    ensures WritersApart(Apply(s, at, c))
  {
    var end := Apply(s, at, c);
    forall i, j | 0 <= i < j < |end.runs| && CanWrite(end, i) && CanWrite(end, j)
      ensures end.runs[i].session != end.runs[j].session
    {
      AppliedElsewhere(s, at, c, i);
      AppliedElsewhere(s, at, c, j);
    }
  }

  lemma NewWriterIsApart(s: Store, at: nat, c: Change)
    requires at < |s.runs| && WritersApart(s) && IsActive(After(s.runs[at], c))
    ensures WritersApart(Apply(s, at, c)) <==> Alone(s, at)
  {
    var end := Apply(s, at, c);
    if Alone(s, at) {
      ChangeBesideOthers(s, at, c);
    } else {
      var i :| 0 <= i < |s.runs| && i != at && CanWrite(s, i) && s.runs[i].session == s.runs[at].session;
      AppliedElsewhere(s, at, c, i);
      AppliedElsewhere(s, at, c, at);
      assert CanWrite(end, at) && CanWrite(end, i);
    }
  }

  lemma NewWriterNow(s: Store, at: nat, c: Change)
    requires at < |s.runs| && OneWriter(s) && IsActive(After(s.runs[at], c))
    ensures OneWriter(Apply(s, at, c)) <==> OthersInactive(s, at)
  {
    var end := Apply(s, at, c);
    AfterKeepsId(s.runs[at], c);
    if OthersInactive(s, at) {
      forall i, j | 0 <= i < j < |end.runs| && IsActive(end.runs[i]) && IsActive(end.runs[j])
        ensures end.runs[i].session != end.runs[j].session
      {
      }
    } else {
      var i :| 0 <= i < |s.runs| && i != at && IsActive(s.runs[i]) && s.runs[i].session == s.runs[at].session;
      assert end.runs[i] == s.runs[i] && end.runs[at] == After(s.runs[at], c);
      if i < at { TwoActive(end, i, at); } else { TwoActive(end, at, i); }
    }
  }

  lemma HydrateIsApart(s: Store, session: string, id: string, onDisk: bool)
    requires WellFormed(s) && WritersApart(s)
    ensures WritersApart(Hydrate(s, session, id, onDisk))
    ensures var t := Hydrate(s, session, id, onDisk);
            forall i | 0 <= i < |t.runs| && CanWrite(t, i) :: i < |s.runs| && CanWrite(s, i) && t.runs[i] == s.runs[i]
  {
    var t := Hydrate(s, session, id, onDisk);
    forall i | 0 <= i < |t.runs| && CanWrite(t, i) ensures i < |s.runs| && CanWrite(s, i) && t.runs[i] == s.runs[i] {
      if i < |s.runs| { HydrateTouches(s, session, id, onDisk, i); }
    }
  }

  lemma NewWriterStaysSingle(s: Store, at: nat, c: Change)
    requires WellFormed(s) && WritersApart(s) && at < |s.runs| && IsActive(After(s.runs[at], c))
    ensures StaysSingle(Apply(s, at, c)) <==> Alone(s, at)
    ensures OneWriter(Apply(s, at, c)) <==> OthersInactive(s, at)
  {
    NewWriterIsApart(s, at, c);
    StaysSingleMeansApart(Apply(s, at, c));
    ApartHasOneWriter(s);
    NewWriterNow(s, at, c);
  }

  /** Continuing a run makes a second writer, at once exactly when another run of its session is
      active, and sooner or later exactly when another one is active or can become so. */
  lemma ContinueNeedsQuietSession(s: Store, session: string, id: string, onDisk: bool, attached: bool)
    requires WellFormed(s) && StaysSingle(s) && Continuable(Hydrate(s, session, id, onDisk), session, id)
    ensures var loaded, end := Hydrate(s, session, id, onDisk), Continue(s, session, id, onDisk, attached);
            && (StaysSingle(end) <==> Alone(loaded, loaded.table[id]))
            && (OneWriter(end) <==> OthersInactive(loaded, loaded.table[id]))
  {
    var loaded := Hydrate(s, session, id, onDisk);
    StaysSingleMeansApart(s);
    HydrateIsApart(s, session, id, onDisk);
    NewWriterStaysSingle(loaded, loaded.table[id], Restart(attached));
  }

  /** So does taking up a request that a run from disk was waiting for. */
  lemma RearmNeedsQuietSession(s: Store, session: string, id: string, onDisk: bool, kind: Kind)
    requires WellFormed(s) && StaysSingle(s)
    requires var loaded := Hydrate(s, session, id, onDisk); id in loaded.table && Rearmable(loaded.runs[loaded.table[id]])
    ensures var loaded, end := Hydrate(s, session, id, onDisk), RearmRun(s, session, id, onDisk, kind);
            && (StaysSingle(end) <==> Alone(loaded, loaded.table[id]))
            && (OneWriter(end) <==> OthersInactive(loaded, loaded.table[id]))
  {
    var loaded := Hydrate(s, session, id, onDisk);
    StaysSingleMeansApart(s);
    HydrateIsApart(s, session, id, onDisk);
    NewWriterStaysSingle(loaded, loaded.table[id], Rearm(kind));
  }

  // ---- Over whole runs of the store ----

  /** At most one run of a session is active or can become so, and the table reaches it. */
  ghost predicate Governed(s: Store) {
    WellFormed(s) && WritersApart(s) && forall i | 0 <= i < |s.runs| && CanWrite(s, i) :: Tabled(s, i)
  }

  /** The id for a new run is free, or held by a run of the same session or one that can no
      longer write once it is lost. */
  predicate IdIsSafe(s: Store, session: string, id: string)
    requires WellFormed(s)
  {
    id in s.table ==> s.runs[s.table[id]].session == session || !WritesUnreached(s.runs[s.table[id]])
  }

  /** What keeps an operation from making a second writer. */
  predicate Safe(s: Store, op: Op)
    requires WellFormed(s)
  {
    match op
    case DoCreate(session, id) => IdIsSafe(s, session, id) && NoneOutlasts(s, session, id)
    case DoResume(session, oldId, onDisk, id) =>
      oldId in s.table || onDisk ==> IdIsSafe(s, session, id) && NoneOutlasts(s, session, id)
    case DoContinue(session, id, onDisk, attached) =>
      var loaded := Hydrate(s, session, id, onDisk);
      Continuable(loaded, session, id) ==> Alone(loaded, loaded.table[id])
    case DoRearm(session, id, onDisk, _) =>
      var loaded := Hydrate(s, session, id, onDisk);
      id in loaded.table && Rearmable(loaded.runs[loaded.table[id]]) ==> Alone(loaded, loaded.table[id])
    case _ => true
  }

  predicate AllSafe(s: Store, ops: seq<Op>)
    requires WellFormed(s)
    decreases |ops|
  {
    ops == [] || (Safe(s, ops[0]) && AllSafe(Do(s, ops[0]), ops[1..]))
  }

  lemma HydrateIsGoverned(s: Store, session: string, id: string, onDisk: bool)
    requires Governed(s)
    ensures Governed(Hydrate(s, session, id, onDisk))
  {
    var t := Hydrate(s, session, id, onDisk);
    HydrateIsApart(s, session, id, onDisk);
    forall i | 0 <= i < |t.runs| && CanWrite(t, i) ensures Tabled(t, i) {
      HydrateTouches(s, session, id, onDisk, i);
    }
  }

  lemma StartIsGoverned(s: Store, session: string, id: string, reason: string)
    requires Governed(s) && IdIsSafe(s, session, id) && NoneOutlasts(s, session, id)
    ensures Governed(Start(s, session, id, reason))
  {
    var end, n := Start(s, session, id, reason), |s.runs|;
    StartIsApart(s, session, id, reason);
    NewRunWrites(s, session, id, reason);
    forall i | 0 <= i < n && CanWrite(end, i) ensures Tabled(end, i) {
      StartedBeside(s, session, id, reason, i);
      StartAdds(s, session, id, reason);
    }
  }

  /** A change of a run that the table reaches: it makes no writer, or one that is alone. */
  lemma ChangeIsGoverned(s: Store, at: nat, c: Change)
    requires Governed(s) && at < |s.runs| && Tabled(s, at) && (CanWrite(Apply(s, at, c), at) ==> Alone(s, at))
    ensures Governed(Apply(s, at, c))
  {
    ChangeBesideOthers(s, at, c);
    forall i | 0 <= i < |s.runs| && CanWrite(Apply(s, at, c), i) ensures Tabled(Apply(s, at, c), i) {
      AppliedElsewhere(s, at, c, i);
    }
  }

  lemma ReachIsGoverned(s: Store, at: nat, c: Change)
    requires Governed(s) && Reaches(s, at, c)
    ensures Governed(Apply(s, at, c))
  {
    ReachKeepsApart(s, at, c);
    forall i | 0 <= i < |s.runs| && CanWrite(Apply(s, at, c), i) ensures Tabled(Apply(s, at, c), i) {
      CanWriteShrinks(s, at, c, i);
      AppliedElsewhere(s, at, c, i);
    }
  }

  lemma RearmIsGoverned(s: Store, at: nat, kind: Kind)
    requires Governed(s) && at < |s.runs| && Tabled(s, at) && (Rearmable(s.runs[at]) ==> Alone(s, at))
    ensures Governed(Apply(s, at, Rearm(kind)))
  {
    if Rearmable(s.runs[at]) {
      ChangeIsGoverned(s, at, Rearm(kind));
    } else {
      assert Apply(s, at, Rearm(kind)) == s by { assert s.runs[at := s.runs[at]] == s.runs; }
    }
  }

  lemma SafeOpIsGoverned(s: Store, op: Op)
    requires Governed(s) && Safe(s, op)
    ensures Governed(Do(s, op))
  {
    match op {
      case DoCreate(session, id) => StartIsGoverned(s, session, id, SUPERSEDED_BY_NEW);
      case DoResume(session, oldId, onDisk, id) =>
        if oldId in s.table || onDisk { StartIsGoverned(s, session, id, SUPERSEDED_BY_RESUME); }
      case DoHydrate(session, id, onDisk) => HydrateIsGoverned(s, session, id, onDisk);
      case DoRearm(session, id, onDisk, kind) =>
        HydrateIsGoverned(s, session, id, onDisk);
        var loaded := Hydrate(s, session, id, onDisk);
        if id in loaded.table { RearmIsGoverned(loaded, loaded.table[id], kind); }
      case DoContinue(session, id, onDisk, attached) =>
        HydrateIsGoverned(s, session, id, onDisk);
        var loaded := Hydrate(s, session, id, onDisk);
        if Continuable(loaded, session, id) { ChangeIsGoverned(loaded, loaded.table[id], Restart(attached)); }
      case DoCancel(id) => if id in s.table { ReachIsGoverned(s, s.table[id], Stop); }
      case DoAnswer(id, kind, reply) => if id in s.table { ReachIsGoverned(s, s.table[id], Answer(kind, reply)); }
      case DoEnv(i, c) => if i < |s.runs| && FromOutside(c) { ReachIsGoverned(s, i, c); }
    }
  }

  /** Over any run of the store whose operations are safe, a session never has two writers. */
  lemma {:induction false} OneWriterPerSession(s: Store, ops: seq<Op>)
    requires Governed(s) && AllSafe(s, ops)
    ensures Governed(DoAll(s, ops)) && OneWriter(DoAll(s, ops))
    decreases |ops|
  {
    ApartHasOneWriter(s);
    if ops != [] {
      SafeOpIsGoverned(s, ops[0]);
      OneWriterPerSession(Do(s, ops[0]), ops[1..]);
    }
  }

  // ---- Ids in use ----

  /** No tabled run of the session but the one at `lost` survives being superseded. */
  predicate OthersEnd(s: Store, session: string, lost: nat) {
    forall i | 0 <= i < |s.runs| && i != lost && Tabled(s, i) && s.runs[i].session == session :: !Escapes(s.runs[i])
  }

  lemma OutlastsTheNext(s: Store, session: string, id: string, next: string, reason: string, i: nat)
    requires Governed(s) && id in s.table && s.runs[s.table[id]].session != session && next !in s.table && next != id
    requires i < |s.runs| && s.runs[i].session == s.runs[s.table[id]].session
    ensures var one := Start(s, session, id, reason);
            |one.runs| == |s.runs| + 1 && (Outlasts(one, i, next) <==>
              if i == s.table[id] then WritesUnreached(s.runs[i]) else Tabled(s, i) && Escapes(s.runs[i]))
  {
    StartAdds(s, session, id, reason);
    assert CanWrite(s, i) ==> Tabled(s, i);
  }

  /** Taking over the id of another session's run loses sight of that run. Its session can then
      get a second writer with its next run exactly when the lost run is active or can become so
      without an answer, or another run of that session survives being superseded. */
  lemma LostRunMattersIfItWrites(s: Store, session: string, id: string, next: string, reason: string, again: string)
    requires Governed(s) && id in s.table && s.runs[s.table[id]].session != session && next !in s.table && next != id
    requires NoneOutlasts(s, session, id)
    ensures var lost := s.table[id];
            StaysSingle(Start(Start(s, session, id, reason), s.runs[lost].session, next, again)) <==>
            !WritesUnreached(s.runs[lost]) && OthersEnd(s, s.runs[lost].session, lost)
  {
    var lost, one := s.table[id], Start(s, session, id, reason);
    var victim := s.runs[lost].session;
    StartIsApart(s, session, id, reason);
    StartIsApart(one, victim, next, again);
    StaysSingleMeansApart(Start(one, victim, next, again));
    NewRunWrites(s, session, id, reason);
    forall i | 0 <= i < |s.runs| && s.runs[i].session == victim
      ensures Outlasts(one, i, next) <==> if i == lost then WritesUnreached(s.runs[i]) else Tabled(s, i) && Escapes(s.runs[i])
    {
      OutlastsTheNext(s, session, id, next, reason, i);
    }
    SameSessions(s, session, id, reason);
  }

  lemma SameSessions(s: Store, session: string, id: string, reason: string)
    requires WellFormed(s)
    ensures var one := Start(s, session, id, reason);
            |one.runs| == |s.runs| + 1 && forall i | 0 <= i < |s.runs| :: one.runs[i].session == s.runs[i].session
  {
    StartAdds(s, session, id, reason);
  }

  /** An active run is lost at once: the next run of its session writes beside it. It does not
      matter whether the runs are new or resume others. */
  lemma UnsafeIdMakesTwoWriters(s: Store, session: string, id: string, next: string, reason: string, again: string)
    requires Governed(s) && next !in s.table && next != id
    ensures var victim := if id in s.table then s.runs[s.table[id]].session else session;
            OneWriter(Start(Start(s, session, id, reason), victim, next, again)) <==>
            victim == session || !IsActive(s.runs[s.table[id]])
  {
    var victim := if id in s.table then s.runs[s.table[id]].session else session;
    var one := Start(s, session, id, reason);
    GovernedTablesActive(s);
    if victim == session || !IsActive(s.runs[s.table[id]]) {
      StartTablesActive(s, session, id, reason);
      StartTablesActive(one, victim, next, again);
    } else {
      LostRunWritesOn(s, session, id, next, reason, again);
    }
  }

  /** One active run a session, and the table reaches it. */
  predicate ActiveTabled(s: Store) {
    OneWriter(s) && forall i | 0 <= i < |s.runs| && IsActive(s.runs[i]) :: Tabled(s, i)
  }

  lemma GovernedTablesActive(s: Store)
    requires Governed(s)
    ensures ActiveTabled(s)
  {
    ApartHasOneWriter(s);
    forall i | 0 <= i < |s.runs| && IsActive(s.runs[i]) ensures Tabled(s, i) {
      assert CanWrite(s, i);
    }
  }

  lemma StartTablesActive(s: Store, session: string, id: string, reason: string)
    requires WellFormed(s) && ActiveTabled(s)
    requires id in s.table ==> s.runs[s.table[id]].session == session || !IsActive(s.runs[s.table[id]])
    ensures ActiveTabled(Start(s, session, id, reason))
  {
    var end := Start(s, session, id, reason);
    StartAdds(s, session, id, reason);
    forall i | 0 <= i < |s.runs| && IsActive(end.runs[i])
      ensures end.runs[i] == s.runs[i] && s.runs[i].session != session && Tabled(end, i)
    {
      assert Tabled(s, i);
    }
  }

  lemma LostRunWritesOn(s: Store, session: string, id: string, next: string, reason: string, again: string)
    requires WellFormed(s) && id in s.table && s.runs[s.table[id]].session != session && IsActive(s.runs[s.table[id]])
    ensures !OneWriter(Start(Start(s, session, id, reason), s.runs[s.table[id]].session, next, again))
  {
    var lost := s.table[id];
    var victim, one := s.runs[lost].session, Start(s, session, id, reason);
    StartAdds(s, session, id, reason);
    assert !Tabled(one, lost);
    StartAdds(one, victim, next, again);
    TwoActive(Start(one, victim, next, again), lost, |one.runs|);
  }

  lemma RevivalNeedsNoEndpoints(i: nat, r: Run)
    ensures NoEndpoints(OpsFor(i, r.id, Revival(r))) && Doable(Revival(r))
  {
    var cs := Revival(r);
    if |cs| == 2 { assert OpsFor(i, r.id, cs[1..]) == [OpFor(i, r.id, cs[1])] + OpsFor(i, r.id, cs[1..][1..]); }
  }

  lemma {:induction false} AfterAllKeepsId(r: Run, cs: seq<Change>)
    ensures AfterAll(r, cs).id == r.id && AfterAll(r, cs).session == r.session
    decreases |cs|
  {
    if cs != [] {
      AfterKeepsId(r, cs[0]);
      AfterAllKeepsId(After(r, cs[0]), cs[1..]);
    }
  }
}
