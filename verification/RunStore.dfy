/** The process-local store of agent runs, on values: who supersedes whom, what a cancel
    leaves, and which runs may write to a session at the same time. */
module RunStore {
  import opened Wrappers
  import opened EventStream
  import opened RunLife

  /** `runs` are all run objects ever made, also those the table no longer reaches; `table`
      maps a run id to one of them. */
  datatype Store = Store(runs: seq<Run>, table: map<string, nat>, latest: map<string, string>)

  predicate Empty(s: Store) { s.runs == [] && s.table == map[] }

  const SUPERSEDED_BY_NEW := "superseded_by_new_run"
  const SUPERSEDED_BY_RESUME := "superseded_by_resume"

  predicate WellFormed(s: Store) {
    forall id | id in s.table :: s.table[id] < |s.runs| && s.runs[s.table[id]].id == id
  }

  // ---- The operations ----

  /** Only runs that the table reaches are found by the loop over its values. */
  predicate Tabled(s: Store, i: nat) { i < |s.runs| && s.runs[i].id in s.table && s.table[s.runs[i].id] == i }

  function CancelOthers(s: Store, session: string, reason: string): (t: Store)
    ensures WellFormed(s) ==> WellFormed(t) && |t.runs| >= |s.runs|
  {
    s.(runs := seq(|s.runs|, i requires 0 <= i < |s.runs| =>
         if Tabled(s, i) && s.runs[i].session == session then Superseded(s.runs[i], reason) else s.runs[i]))
  }

  function Added(s: Store, r: Run): (t: Store)
    ensures WellFormed(s) ==> WellFormed(t) && |t.runs| >= |s.runs|
  {
    Store(s.runs + [r], s.table[r.id := |s.runs|], s.latest[r.session := r.id])
  }

  /** What `create_run` and `create_run_resuming` have in common. */
  function Start(s: Store, session: string, id: string, reason: string): (t: Store)
    ensures WellFormed(s) ==> WellFormed(t) && |t.runs| >= |s.runs|
  {
    Added(CancelOthers(s, session, reason), Born(session, id, false, Running))
  }

  function Create(s: Store, session: string, id: string): Store { Start(s, session, id, SUPERSEDED_BY_NEW) }

  /** `onDisk` tells whether a log of the old run can be loaded; a run in memory needs none. */
  function ResumeFrom(s: Store, session: string, oldId: string, onDisk: bool, id: string): (t: Store)
    ensures WellFormed(s) ==> WellFormed(t) && |t.runs| >= |s.runs|
  {
    if oldId in s.table || onDisk then Start(s, session, id, SUPERSEDED_BY_RESUME) else s
  }

  function Hydrate(s: Store, session: string, id: string, onDisk: bool): (t: Store)
    ensures WellFormed(s) ==> WellFormed(t) && |t.runs| >= |s.runs|
  {
    if id in s.table || !onDisk then s else Added(s, Born(session, id, true, Idle))
  }

  function Apply(s: Store, i: nat, c: Change): (t: Store)
    requires i < |s.runs|
    ensures WellFormed(s) ==> WellFormed(t) && |t.runs| >= |s.runs|
  {
    s.(runs := s.runs[i := After(s.runs[i], c)])
  }

  /** The same for the run under an id, if there is one. */
  function ApplyTo(s: Store, id: string, c: Change): (t: Store)
    requires WellFormed(s)
    ensures WellFormed(s) ==> WellFormed(t) && |t.runs| >= |s.runs|
  {
    if id in s.table then Apply(s, s.table[id], c) else s
  }

  function Cancel(s: Store, id: string): Store
    requires WellFormed(s)
  {
    ApplyTo(s, id, Stop)
  }

  /** The continue endpoint finds the run, or refuses. */
  predicate Continuable(s: Store, session: string, id: string)
    requires WellFormed(s)
  {
    id in s.table && s.runs[s.table[id]].session == session && !Active(s.runs[s.table[id]].status)
  }

  function Continue(s: Store, session: string, id: string, onDisk: bool, attached: bool): (t: Store)
    requires WellFormed(s)
    ensures WellFormed(s) ==> WellFormed(t) && |t.runs| >= |s.runs|
  {
    var loaded := Hydrate(s, session, id, onDisk);
    if Continuable(loaded, session, id) then ApplyTo(loaded, id, Restart(attached)) else loaded
  }

  /** Load the run if need be, and take up the request it was waiting for when it was saved.
      The endpoints do this without looking at the other runs of the session. */
  function RearmRun(s: Store, session: string, id: string, onDisk: bool, kind: Kind): (t: Store)
    requires WellFormed(s)
    ensures WellFormed(s) ==> WellFormed(t) && |t.runs| >= |s.runs|
  {
    ApplyTo(Hydrate(s, session, id, onDisk), id, Rearm(kind))
  }

  // ---- Runs of the store ----

  /** `DoEnv` is a step of the loops, watchers and tasks of one run object. */
  datatype Op =
    | DoCreate(session: string, id: string)
    | DoResume(session: string, oldId: string, onDisk: bool, id: string)
    | DoHydrate(session: string, id: string, onDisk: bool)
    | DoRearm(session: string, id: string, onDisk: bool, kind: Kind)
    | DoCancel(id: string)
    | DoContinue(session: string, id: string, onDisk: bool, attached: bool)
    | DoAnswer(id: string, kind: Kind, reply: Reply)
    | DoEnv(at: nat, change: Change)

  function Do(s: Store, op: Op): (t: Store)
    requires WellFormed(s)
    ensures WellFormed(t) && |t.runs| >= |s.runs|
  {
    match op
    case DoCreate(session, id) => Create(s, session, id)
    case DoResume(session, oldId, onDisk, id) => ResumeFrom(s, session, oldId, onDisk, id)
    case DoHydrate(session, id, onDisk) => Hydrate(s, session, id, onDisk)
    case DoRearm(session, id, onDisk, kind) => RearmRun(s, session, id, onDisk, kind)
    case DoCancel(id) => Cancel(s, id)
    case DoContinue(session, id, onDisk, attached) => Continue(s, session, id, onDisk, attached)
    case DoAnswer(id, kind, reply) => ApplyTo(s, id, Answer(kind, reply))
    case DoEnv(i, c) => if i < |s.runs| && FromOutside(c) then Apply(s, i, c) else s
  }

  function DoAll(s: Store, ops: seq<Op>): (end: Store)
    requires WellFormed(s)
    ensures WellFormed(end) && |end.runs| >= |s.runs|
    decreases |ops|
  {
    if ops == [] then s else DoAll(Do(s, ops[0]), ops[1..])
  }

  // ---- The life of one run object in a run of the store ----

  /** What one operation does to a run object that is already there. */
  function Touch(s: Store, op: Op, i: nat): Option<Change>
    requires WellFormed(s) && i < |s.runs|
  {
    var r := s.runs[i];
    match op
    case DoCreate(session, id) => if Tabled(s, i) && r.session == session then Some(Supersede(SUPERSEDED_BY_NEW)) else None
    case DoResume(session, oldId, onDisk, id) =>
      if (oldId in s.table || onDisk) && Tabled(s, i) && r.session == session then Some(Supersede(SUPERSEDED_BY_RESUME)) else None
    case DoHydrate(_, _, _) => None
    case DoRearm(_, id, _, kind) => if Tabled(s, i) && r.id == id then Some(Rearm(kind)) else None
    case DoCancel(id) => if Tabled(s, i) && r.id == id then Some(Stop) else None
    case DoContinue(session, id, _, attached) => if Tabled(s, i) && r.id == id && r.session == session then Some(Restart(attached)) else None
    case DoAnswer(id, kind, reply) => if Tabled(s, i) && r.id == id then Some(Answer(kind, reply)) else None
    case DoEnv(at, c) => if at == i && FromOutside(c) then Some(c) else None
  }

  function Touched(r: Run, c: Option<Change>): Run { if c.Some? then After(r, c.value) else r }

  lemma StartTouches(s: Store, session: string, id: string, reason: string, i: nat)
    requires WellFormed(s) && i < |s.runs|
    ensures Start(s, session, id, reason).runs[i] ==
            if Tabled(s, i) && s.runs[i].session == session then Superseded(s.runs[i], reason) else s.runs[i]
  {
  }

  lemma HydrateTouches(s: Store, session: string, id: string, onDisk: bool, i: nat)
    requires WellFormed(s) && i < |s.runs|
    ensures var loaded := Hydrate(s, session, id, onDisk); loaded.runs[i] == s.runs[i] && (Tabled(loaded, i) <==> Tabled(s, i))
  {
  }

  lemma ApplyToTouches(s: Store, id: string, c: Change, i: nat)
    requires WellFormed(s) && i < |s.runs|
    ensures ApplyTo(s, id, c).runs[i] == if Tabled(s, i) && s.runs[i].id == id then After(s.runs[i], c) else s.runs[i]
  {
  }

  lemma ContinueTouches(s: Store, session: string, id: string, onDisk: bool, attached: bool, i: nat)
    requires WellFormed(s) && i < |s.runs|
    ensures Continue(s, session, id, onDisk, attached).runs[i] ==
            if Tabled(s, i) && s.runs[i].id == id && s.runs[i].session == session then After(s.runs[i], Restart(attached)) else s.runs[i]
  {
    HydrateTouches(s, session, id, onDisk, i);
    ApplyToTouches(Hydrate(s, session, id, onDisk), id, Restart(attached), i);
  }

  lemma DoTouches(s: Store, op: Op, i: nat)
    requires WellFormed(s) && i < |s.runs|
    ensures Do(s, op).runs[i] == Touched(s.runs[i], Touch(s, op, i))
  {
    match op {
      case DoCreate(session, id) => StartTouches(s, session, id, SUPERSEDED_BY_NEW, i);
      case DoResume(session, _, _, id) => StartTouches(s, session, id, SUPERSEDED_BY_RESUME, i);
      case DoHydrate(session, id, onDisk) => HydrateTouches(s, session, id, onDisk, i);
      case DoRearm(session, id, onDisk, kind) =>
        HydrateTouches(s, session, id, onDisk, i);
        ApplyToTouches(Hydrate(s, session, id, onDisk), id, Rearm(kind), i);
      case DoCancel(id) => ApplyToTouches(s, id, Stop, i);
      case DoContinue(session, id, onDisk, attached) => ContinueTouches(s, session, id, onDisk, attached, i);
      case DoAnswer(id, kind, reply) => ApplyToTouches(s, id, Answer(kind, reply), i);
      case DoEnv(_, _) =>
    }
  }

  function Changes(s: Store, ops: seq<Op>, i: nat): seq<Change>
    requires WellFormed(s) && i < |s.runs|
    decreases |ops|
  {
    if ops == [] then []
    else
      var c := Touch(s, ops[0], i);
      if c.Some? then [c.value] + Changes(Do(s, ops[0]), ops[1..], i) else Changes(Do(s, ops[0]), ops[1..], i)
  }

  /** Every run object lives the life that the operations on the store make for it. */
  lemma {:induction false} RunLives(s: Store, ops: seq<Op>, i: nat)
    requires WellFormed(s) && i < |s.runs|
    ensures DoAll(s, ops).runs[i] == AfterAll(s.runs[i], Changes(s, ops, i))
    decreases |ops|
  {
    if ops != [] {
      var c, rest := Touch(s, ops[0], i), Changes(Do(s, ops[0]), ops[1..], i);
      DoTouches(s, ops[0], i);
      RunLives(Do(s, ops[0]), ops[1..], i);
      assert c.Some? ==> ([c.value] + rest)[1..] == rest;
    }
  }

  lemma AfterKeepsId(r: Run, c: Change)
    ensures After(r, c).id == r.id && After(r, c).session == r.session
  {
  }

  /** No operation continues or re-arms the run with this id. */
  predicate Untouched(ops: seq<Op>, id: string) { forall op | op in ops :: op.DoContinue? || op.DoRearm? ==> op.id != id }

  lemma {:induction false} UntouchedIsLeftAlone(s: Store, ops: seq<Op>, i: nat)
    requires WellFormed(s) && i < |s.runs| && Untouched(ops, s.runs[i].id)
    ensures LeftAlone(Changes(s, ops, i))
    decreases |ops|
  {
    if ops != [] {
      assert ops[0] in ops;
      var c := Touch(s, ops[0], i);
      DoTouches(s, ops[0], i);
      if c.Some? { AfterKeepsId(s.runs[i], c.value); }
      UntouchedIsLeftAlone(Do(s, ops[0]), ops[1..], i);
    }
  }

  /** The operations that put the run through the changes. */
  function OpFor(i: nat, id: string, c: Change): Op {
    match c
    case Stop => DoCancel(id)
    case Answer(kind, reply) => DoAnswer(id, kind, reply)
    case _ => DoEnv(i, c)
  }

  function OpsFor(i: nat, id: string, cs: seq<Change>): seq<Op> {
    if cs == [] then [] else [OpFor(i, id, cs[0])] + OpsFor(i, id, cs[1..])
  }

  predicate Doable(cs: seq<Change>) { forall c | c in cs :: c.Stop? || c.Answer? || FromOutside(c) }

  lemma {:induction false} OpsForDo(s: Store, i: nat, cs: seq<Change>)
    requires WellFormed(s) && i < |s.runs| && Doable(cs) && (Tabled(s, i) || forall c | c in cs :: FromOutside(c))
    ensures var id := s.runs[i].id;
            DoAll(s, OpsFor(i, id, cs)) == s.(runs := s.runs[i := AfterAll(s.runs[i], cs)]) && Untouched(OpsFor(i, id, cs), id)
    decreases |cs|
  {
    if cs == [] {
      assert s.runs[i := s.runs[i]] == s.runs;
    } else {
      var id, c, op := s.runs[i].id, cs[0], OpFor(i, s.runs[i].id, cs[0]);
      assert c in cs;
      AfterKeepsId(s.runs[i], c);
      var next := Do(s, op);
      assert next == s.(runs := s.runs[i := After(s.runs[i], c)]);
      OpsForDo(next, i, cs[1..]);
      assert OpsFor(i, id, cs)[1..] == OpsFor(i, id, cs[1..]);
    }
  }

  // ---- What every run keeps ----

  /** A property that new runs have and no change breaks. */
  ghost predicate Hereditary(keeps: Run -> bool) {
    && (forall r, c :: keeps(r) ==> keeps(After(r, c)))
    && (forall session, id :: keeps(Born(session, id, false, Running)) && keeps(Born(session, id, true, Idle)))
  }

  lemma HydrateKeeps(s: Store, session: string, id: string, onDisk: bool, keeps: Run -> bool)
    requires Hereditary(keeps) && forall i | 0 <= i < |s.runs| :: keeps(s.runs[i])
    ensures var t := Hydrate(s, session, id, onDisk); forall i | 0 <= i < |t.runs| :: keeps(t.runs[i])
  {
    assert keeps(Born(session, id, true, Idle));
  }

  lemma ApplyToKeeps(s: Store, id: string, c: Change, keeps: Run -> bool)
    requires WellFormed(s) && Hereditary(keeps) && forall i | 0 <= i < |s.runs| :: keeps(s.runs[i])
    ensures var t := ApplyTo(s, id, c); forall i | 0 <= i < |t.runs| :: keeps(t.runs[i])
  {
    if id in s.table { assert keeps(After(s.runs[s.table[id]], c)); }
  }

  lemma StartKeeps(s: Store, session: string, id: string, reason: string, keeps: Run -> bool)
    requires WellFormed(s) && Hereditary(keeps) && forall i | 0 <= i < |s.runs| :: keeps(s.runs[i])
    ensures var t := Start(s, session, id, reason); forall i | 0 <= i < |t.runs| :: keeps(t.runs[i])
  {
    assert keeps(Born(session, id, false, Running));
    forall i | 0 <= i < |s.runs| ensures keeps(Start(s, session, id, reason).runs[i]) {
      StartTouches(s, session, id, reason, i);
      assert keeps(After(s.runs[i], Supersede(reason)));
    }
  }

  lemma DoKeeps(s: Store, op: Op, keeps: Run -> bool)
    requires WellFormed(s) && Hereditary(keeps) && forall i | 0 <= i < |s.runs| :: keeps(s.runs[i])
    ensures forall i | 0 <= i < |Do(s, op).runs| :: keeps(Do(s, op).runs[i])
  {
    match op {
      case DoCreate(session, id) => StartKeeps(s, session, id, SUPERSEDED_BY_NEW, keeps);
      case DoResume(session, _, _, id) => StartKeeps(s, session, id, SUPERSEDED_BY_RESUME, keeps);
      case DoHydrate(session, id, onDisk) => HydrateKeeps(s, session, id, onDisk, keeps);
      case DoRearm(session, id, onDisk, kind) =>
        HydrateKeeps(s, session, id, onDisk, keeps);
        ApplyToKeeps(Hydrate(s, session, id, onDisk), id, Rearm(kind), keeps);
      case DoCancel(id) => ApplyToKeeps(s, id, Stop, keeps);
      case DoContinue(session, id, onDisk, attached) =>
        HydrateKeeps(s, session, id, onDisk, keeps);
        ApplyToKeeps(Hydrate(s, session, id, onDisk), id, Restart(attached), keeps);
      case DoAnswer(id, kind, reply) => ApplyToKeeps(s, id, Answer(kind, reply), keeps);
      case DoEnv(i, c) => if i < |s.runs| { assert keeps(After(s.runs[i], c)); }
    }
  }

  /** A property that new runs have and no change breaks holds of every run, always. */
  lemma {:induction false} EveryRunKeeps(s: Store, ops: seq<Op>, keeps: Run -> bool)
    requires WellFormed(s) && Hereditary(keeps) && forall i | 0 <= i < |s.runs| :: keeps(s.runs[i])
    ensures forall i | 0 <= i < |DoAll(s, ops).runs| :: keeps(DoAll(s, ops).runs[i])
    decreases |ops|
  {
    if ops != [] {
      DoKeeps(s, ops[0], keeps);
      EveryRunKeeps(Do(s, ops[0]), ops[1..], keeps);
    }
  }

  /** So the events of every run are numbered by their place in its log, as the streams need. */
  lemma EveryLogIsNumbered(s: Store, ops: seq<Op>)
    requires Empty(s)
    ensures forall i | 0 <= i < |DoAll(s, ops).runs| :: Numbered(DoAll(s, ops).runs[i].events)
  {
    var keeps := (r: Run) => Numbered(r.events);
    forall r, c | keeps(r) ensures keeps(After(r, c)) {
      ChangeKeepsNumbers(r, c);
    }
    EveryRunKeeps(s, ops, keeps);
  }

  lemma ChangeKeepsNumbers(r: Run, c: Change)
    requires Numbered(r.events)
    ensures Numbered(After(r, c).events)
  {
    ChangeGrows(r, c);
  }

  // ---- A few operations in turn ----

  /** One operation of a run, and what it leads to. */
  lemma FirstStep(s: Store, op: Op, ops: seq<Op>)
    requires WellFormed(s)
    ensures DoAll(s, [op] + ops) == DoAll(Do(s, op), ops)
  {
    assert ([op] + ops)[1..] == ops;
  }

  lemma NoStep(s: Store)
    requires WellFormed(s)
    ensures DoAll(s, []) == s
  {
  }

  lemma StartAdds(s: Store, session: string, id: string, reason: string)
    requires WellFormed(s)
    ensures var end, n := Start(s, session, id, reason), |s.runs|;
            && |end.runs| == n + 1 && end.runs[n] == Born(session, id, false, Running) && end.table == s.table[id := n]
            && forall i | 0 <= i < n ::
                 end.runs[i] == if Tabled(s, i) && s.runs[i].session == session then Superseded(s.runs[i], reason) else s.runs[i]
  {
  }

  lemma HydratedIsRearmed(s: Store, session: string, id: string, kind: Kind)
    requires WellFormed(s) && id !in s.table
    ensures var end, n := RearmRun(s, session, id, true, kind), |s.runs|;
            && |end.runs| == n + 1 && end.runs[..n] == s.runs && end.table == s.table[id := n]
            && end.runs[n] == Rearmed(Born(session, id, true, Idle), kind)
  {
  }
}
