/** Whole runs of the catalog store: saves, loads, start-ups, and a crash after any
    file-system step of any of them, also inside a recovery. */
module Recovery {
  import opened Json
  import opened Durable
  import opened CatalogViews

  /** The `Cut` events are operations that a crash ends after some number of steps. */
  datatype Event =
    | Save(name: string, value: Value, mode: WriteMode)
    | Load(name: string)
    | Boot(pid: string)
    | SaveCut(name: string, value: Value, mode: WriteMode, after: nat)
    | LoadCut(name: string, after: nat)
    | BootCut(pid: string, after: nat)

  datatype System = System(files: Files, pid: string, up: bool)

  function CutOff(fs: Files, trail: seq<Files>, after: nat): Files {
    if after == 0 then fs else if after <= |trail| then trail[after - 1] else After(fs, trail)
  }

  /** Nothing but a start-up happens to a system that is down. */
  function Exec(sys: System, e: Event): System {
    match e
    case Boot(pid) => System(After(sys.files, Startup(sys.files, pid).trail), pid, true)
    case BootCut(pid, after) => System(CutOff(sys.files, Startup(sys.files, pid).trail, after), pid, false)
    case Save(name, value, mode) =>
      if sys.up then sys.(files := After(sys.files, SaveTrail(sys.files, sys.pid, name, value, mode))) else sys
    case SaveCut(name, value, mode, after) =>
      if sys.up then sys.(files := CutOff(sys.files, SaveTrail(sys.files, sys.pid, name, value, mode), after), up := false) else sys
    case Load(name) =>
      if sys.up then sys.(files := After(sys.files, RestoreTrail(sys.files, sys.pid, name))) else sys
    case LoadCut(name, after) =>
      if sys.up then sys.(files := CutOff(sys.files, RestoreTrail(sys.files, sys.pid, name), after), up := false) else sys
  }

  function Run(sys: System, es: seq<Event>): System
    decreases |es|
  {
    if es == [] then sys else Run(Exec(sys, es[0]), es[1..])
  }

  lemma RunJoins(sys: System, a: seq<Event>, b: seq<Event>)
    ensures Run(sys, a + b) == Run(Run(sys, a), b)
    decreases |a|
  {
    if a == [] {
      assert a + b == b;
    } else {
      assert (a + b)[1..] == a[1..] + b;
      RunJoins(Exec(sys, a[0]), a[1..], b);
    }
  }

  predicate Saves(e: Event, name: string) { (e.Save? || e.SaveCut?) && e.name == name }

  /** Every event names a catalog. */
  predicate OnCatalogs(es: seq<Event>) {
    forall e | e in es :: e.Boot? || e.BootCut? || e.name in CATALOGS
  }

  /** The one-time migration has run, or does not concern `name`. */
  predicate PastMigration(fs: Files, name: string) { MARKER in fs || name !in MIGRATED }

  // ---- One event, seen from one catalog ----

  function CutView(c: Catalog, views: seq<Catalog>, after: nat): Catalog {
    if after == 0 then c else if after <= |views| then views[after - 1] else Last(c, views)
  }

  predicate Next(c: Catalog, d: Catalog, e: Event, up: bool, name: string) {
    match e
    case Boot(_) => d == Restored(c)
    case BootCut(_, _) => d in [c] + RestoreViews(c)
    case Save(n, value, mode) => d == if up && n == name then Last(c, SaveViews(c, value, mode)) else c
    case SaveCut(n, value, mode, after) => d == if up && n == name then CutView(c, SaveViews(c, value, mode), after) else c
    case Load(n) => d == if up && n == name then Restored(c) else c
    case LoadCut(n, after) => d == if up && n == name then CutView(c, RestoreViews(c), after) else c
  }

  /** A state of a trail is the start or is seen in the trail's views. */
  lemma CutOffSeen(fs: Files, trail: seq<Files>, after: nat, name: string)
    ensures View(CutOff(fs, trail, after), name) == CutView(View(fs, name), Views(trail, name), after)
    ensures View(CutOff(fs, trail, after), name) in [View(fs, name)] + Views(trail, name)
  {
    var views := Views(trail, name);
    ViewOfAfter(fs, trail, name);
    if 0 < after <= |trail| {
      assert views[after - 1] in views;
    } else if after > |trail| && trail != [] {
      assert views[|views| - 1] in views;
    }
  }

  lemma CutOffIsThere(fs: Files, trail: seq<Files>, after: nat)
    ensures CutOff(fs, trail, after) == fs || CutOff(fs, trail, after) in trail
  {
  }

  lemma WriteKeepsMarker(fs: Files, pid: string, p: Path, content: Content)
    requires JsonName(p.file) && MARKER in fs
    ensures forall state | state in AtomicWriteTrail(fs, pid, p, content) :: MARKER in state
  {
    var tmp, marker := TmpPath(p, pid).file, MARKER.file;
    assert p.file[|p.file| - 1] == p.file[|p.file| - 5..][4] == 'n';
    assert tmp[|tmp| - 1] == 'p' && marker[|marker| - 1] == 'd';
  }

  /** A save or a restore of catalog `other`, seen from `name`. */
  lemma SaveUnseen(fs: Files, pid: string, other: string, value: Value, mode: WriteMode, name: string)
    requires JsonName(name) && JsonName(other) && other != name
    ensures forall state | state in SaveTrail(fs, pid, other, value, mode) :: View(state, name) == View(fs, name)
  {
    var first := AtomicWriteTrail(fs, pid, Path(Primary, other), Doc(value));
    OtherWriteUnseen(fs, pid, Path(Primary, other), Doc(value), name);
    OtherWriteUnseen(After(fs, first), pid, Path(Mirror, other), Doc(Strip(value)), name);
  }

  lemma RestoreUnseen(fs: Files, pid: string, other: string, name: string)
    requires JsonName(name) && JsonName(other) && other != name
    ensures forall state | state in RestoreTrail(fs, pid, other) :: View(state, name) == View(fs, name)
  {
    if ChosenIn(fs, other).Some? {
      OtherWriteUnseen(fs, pid, Path(Primary, other), Doc(ChosenIn(fs, other).value), name);
    }
  }

  lemma TrailsKeepMarker(fs: Files, pid: string, name: string, value: Value, mode: WriteMode)
    requires JsonName(name) && MARKER in fs
    ensures forall state | state in SaveTrail(fs, pid, name, value, mode) :: MARKER in state
    ensures forall state | state in RestoreTrail(fs, pid, name) :: MARKER in state
  {
    var first := AtomicWriteTrail(fs, pid, Path(Primary, name), Doc(value));
    WriteKeepsMarker(fs, pid, Path(Primary, name), Doc(value));
    WriteKeepsMarker(After(fs, first), pid, Path(Mirror, name), Doc(Strip(value)));
    if ChosenIn(fs, name).Some? {
      WriteKeepsMarker(fs, pid, Path(Primary, name), Doc(ChosenIn(fs, name).value));
    }
  }

  /** After a successful restore, or one that had nothing to do, the next one does nothing. */
  lemma RestoreSettles(c: Catalog)
    ensures RestoreViews(Restored(c)) == []
  {
  }

  /** Restoring all catalogs is, for each of them, one restore. */
  lemma {:induction false} RestoreAllSeen(fs: Files, pid: string, names: seq<string>, name: string)
    requires JsonName(name) && forall n | n in names :: JsonName(n)
    ensures forall state | state in RestoreAll(fs, pid, names).trail ::
              View(state, name) in [View(fs, name)] + RestoreViews(View(fs, name))
    ensures View(After(fs, RestoreAll(fs, pid, names).trail), name) ==
            if name in names then Restored(View(fs, name)) else View(fs, name)
    ensures MARKER in fs ==> forall state | state in RestoreAll(fs, pid, names).trail :: MARKER in state
    decreases |names|
  {
    if names != [] {
      var c, own := View(fs, name), RestoreTrail(fs, pid, names[0]);
      var next := After(fs, own);
      RestoreAllSeen(next, pid, names[1..], name);
      Joined(fs, [], own, RestoreAll(next, pid, names[1..]).trail);
      if MARKER in fs { TrailsKeepMarker(fs, pid, names[0], Null, AllowEmpty); }
      if names[0] == name {
        RestoreSeen(fs, pid, name);
        ViewOfAfter(fs, own, name);
        RestoreSettles(c);
        ViewsAreMembers(own, name);
      } else {
        RestoreUnseen(fs, pid, names[0], name);
      }
    }
  }

  /** The names that are reported are those of the catalogs that had something to recover. */
  lemma {:induction false} RestoreAllReports(fs: Files, pid: string, names: seq<string>, name: string)
    requires JsonName(name) && forall n | n in names :: JsonName(n)
    ensures name in RestoreAll(fs, pid, names).names <==> name in names && RestoreViews(View(fs, name)) != []
    decreases |names|
  {
    if names != [] {
      var own := RestoreTrail(fs, pid, names[0]);
      var next := After(fs, own);
      RestoreAllReports(next, pid, names[1..], name);
      if names[0] == name {
        RestoreSeen(fs, pid, name);
        ViewOfAfter(fs, own, name);
        RestoreSettles(View(fs, name));
      } else {
        RestoreUnseen(fs, pid, names[0], name);
        EndUnseen(fs, own, name);
      }
    }
  }

  lemma EndUnseen(fs: Files, trail: seq<Files>, name: string)
    requires forall state | state in trail :: View(state, name) == View(fs, name)
    ensures View(After(fs, trail), name) == View(fs, name)
  {
    if trail != [] { assert trail[|trail| - 1] in trail; }
  }

  /** Once the migration has run, a start-up reports exactly the catalogs it has recovered: those
      whose primary has no records, but the mirror does, or the `.bak` of a primary that is
      missing or unreadable. */
  lemma StartupReports(fs: Files, pid: string, name: string)
    requires name in CATALOGS && MARKER in fs
    ensures name in Startup(fs, pid).names <==>
            var primary := Read(fs, Path(Primary, name));
            Records(primary) == 0
            && (Records(Read(fs, Path(Mirror, name))) > 0
                || (primary.None? && Records(Read(fs, BakPath(Path(Primary, name)))) > 0))
  {
    CatalogNamesAreValid();
    ReportedAfter(fs, pid, MigrateLegacy(fs), CATALOGS, name);
    SomethingToRecover(fs, name);
  }

  lemma ReportedAfter(fs: Files, pid: string, migrated: Work, catalogs: seq<string>, name: string)
    requires migrated == Work([], []) && name in catalogs && forall n | n in catalogs :: JsonName(n)
    ensures name in RestoreAfter(fs, pid, migrated, catalogs).names <==> RestoreViews(View(fs, name)) != []
  {
    RestoreAllReports(fs, pid, catalogs, name);
  }

  lemma SomethingToRecover(fs: Files, name: string)
    ensures RestoreViews(View(fs, name)) != [] <==>
            var primary := Read(fs, Path(Primary, name));
            Records(primary) == 0
            && (Records(Read(fs, Path(Mirror, name))) > 0
                || (primary.None? && Records(Read(fs, BakPath(Path(Primary, name)))) > 0))
  {
  }

  lemma ViewsAreMembers(trail: seq<Files>, name: string)
    ensures forall state | state in trail :: View(state, name) in Views(trail, name)
    ensures forall c | c in Views(trail, name) :: exists state :: state in trail && View(state, name) == c
  {
    forall state | state in trail ensures View(state, name) in Views(trail, name) {
      var i :| 0 <= i < |trail| && trail[i] == state;
      assert Views(trail, name)[i] == View(state, name);
    }
  }

  lemma MigrateOneUnseen(fs: Files, legacy: Root, other: string, name: string)
    requires JsonName(name) && JsonName(other) && other != name
    ensures forall state | state in MigrateOneTrail(fs, legacy, other) :: View(state, name) == View(fs, name)
  {
    FileNamesDiffer(Path(Primary, name), Path(Primary, other), "");
  }

  lemma {:induction false} MigrateDirUnseen(fs: Files, legacy: Root, names: seq<string>, name: string)
    requires JsonName(name) && forall n | n in names :: JsonName(n) && n != name
    ensures forall state | state in MigrateDir(fs, legacy, names).trail :: View(state, name) == View(fs, name)
    decreases |names|
  {
    if names != [] {
      MigrateOneUnseen(fs, legacy, names[0], name);
      MigrateDirUnseen(After(fs, MigrateOneTrail(fs, legacy, names[0])), legacy, names[1..], name);
    }
  }

  lemma {:induction false} MigrateDirsUnseen(fs: Files, roots: seq<Root>, names: seq<string>, name: string)
    requires JsonName(name) && name !in names && forall n | n in names :: JsonName(n)
    ensures forall state | state in MigrateDirs(fs, roots, names).trail :: View(state, name) == View(fs, name)
    decreases |roots|
  {
    if roots != [] {
      MigrateDirUnseen(fs, roots[0], names, name);
      MigrateDirsUnseen(After(fs, MigrateDir(fs, roots[0], names).trail), roots[1..], names, name);
    }
  }

  /** The migration, and the marker it writes, leave the catalog alone. */
  lemma MigrationUnseen(fs: Files, name: string)
    requires name in CATALOGS && PastMigration(fs, name)
    ensures forall state | state in MigrateLegacy(fs).trail :: View(state, name) == View(fs, name)
    ensures View(After(fs, MigrateLegacy(fs).trail), name) == View(fs, name)
    ensures PastMigration(After(fs, MigrateLegacy(fs).trail), name)
  {
    CatalogNamesAreValid();
    if MARKER !in fs {
      assert forall n | n in MIGRATED :: n in CATALOGS;
      MigrateDirsUnseen(fs, LEGACY_ROOTS, MIGRATED, name);
      var copied := After(fs, MigrateDirs(fs, LEGACY_ROOTS, MIGRATED).trail);
      MarkerUnseen(copied, name);
    }
  }

  lemma MarkerUnseen(fs: Files, name: string)
    requires JsonName(name)
    ensures View(fs[MARKER := Garbled], name) == View(fs, name)
  {
    var bak, marker := name + ".bak", MARKER.file;
    assert name[|name| - 1] == name[|name| - 5..][4] == 'n';
    assert bak[|bak| - 1] == 'k' && marker[|marker| - 1] == 'd';
  }

  lemma NoticeUnseen(fs: Files, pid: string, names: seq<string>, name: string)
    requires JsonName(name) && name != NOTICE_FILE
    ensures forall state | state in NoticeTrail(fs, pid, names) :: View(state, name) == View(fs, name)
    ensures View(After(fs, NoticeTrail(fs, pid, names)), name) == View(fs, name)
    ensures MARKER in fs ==> forall state | state in NoticeTrail(fs, pid, names) :: MARKER in state
  {
    if names != [] {
      OtherWriteUnseen(fs, pid, Path(Primary, NOTICE_FILE), Doc(NoticeDocument(names)), name);
      if MARKER in fs { WriteKeepsMarker(fs, pid, Path(Primary, NOTICE_FILE), Doc(NoticeDocument(names))); }
    }
  }

  lemma RestoreAfterSeen(fs: Files, pid: string, migrated: Work, catalogs: seq<string>, name: string)
    requires name in catalogs && NOTICE_FILE !in catalogs && forall n | n in catalogs :: JsonName(n)
    requires View(After(fs, migrated.trail), name) == View(fs, name)
    requires forall state | state in migrated.trail :: View(state, name) == View(fs, name)
    ensures var trail, c := RestoreAfter(fs, pid, migrated, catalogs).trail, View(fs, name);
            && (forall state | state in trail :: View(state, name) in [c] + RestoreViews(c))
            && View(After(fs, trail), name) == Restored(c)
            && (MARKER in fs && migrated.trail == [] ==> forall state | state in trail :: MARKER in state)
  {
    var c, ready := View(fs, name), After(fs, migrated.trail);
    var restored := RestoreAll(ready, pid, catalogs);
    RestoreAllSeen(ready, pid, catalogs, name);
    Joined(fs, [], migrated.trail, restored.trail);
    var names, finished := migrated.names + restored.names, After(ready, restored.trail);
    NoticeUnseen(finished, pid, names, name);
    Joined(fs, [], migrated.trail + restored.trail, NoticeTrail(finished, pid, names));
    assert Restored(c) in [c] + RestoreViews(c);
  }

  /** The whole start-up is one restore of each catalog. */
  lemma StartupSeen(fs: Files, pid: string, name: string)
    requires name in CATALOGS && PastMigration(fs, name)
    ensures forall state | state in Startup(fs, pid).trail ::
              View(state, name) in [View(fs, name)] + RestoreViews(View(fs, name))
    ensures View(After(fs, Startup(fs, pid).trail), name) == Restored(View(fs, name))
    ensures MARKER in fs ==> forall state | state in Startup(fs, pid).trail :: MARKER in state
    ensures PastMigration(After(fs, Startup(fs, pid).trail), name)
  {
    CatalogNamesAreValid();
    MigrationUnseen(fs, name);
    RestoreAfterSeen(fs, pid, MigrateLegacy(fs), CATALOGS, name);
  }

  lemma UnseenViews(trail: seq<Files>, c: Catalog, name: string)
    requires forall state | state in trail :: View(state, name) == c
    ensures Views(trail, name) == seq(|trail|, i => c)
  {
    assert forall i | 0 <= i < |trail| :: trail[i] in trail;
  }

  lemma SaveEventSeen(fs: Files, pid: string, n: string, value: Value, mode: WriteMode, name: string)
    requires JsonName(n) && JsonName(name) && PastMigration(fs, name)
    ensures Views(SaveTrail(fs, pid, n, value, mode), name) ==
            if n == name then SaveViews(View(fs, name), value, mode)
            else seq(|SaveTrail(fs, pid, n, value, mode)|, i => View(fs, name))
    ensures forall state | state in SaveTrail(fs, pid, n, value, mode) :: PastMigration(state, name)
  {
    if n == name {
      SaveSeen(fs, pid, name, value, mode);
    } else {
      SaveUnseen(fs, pid, n, value, mode, name);
      UnseenViews(SaveTrail(fs, pid, n, value, mode), View(fs, name), name);
    }
    if MARKER in fs { TrailsKeepMarker(fs, pid, n, value, mode); }
  }

  lemma RestoreEventSeen(fs: Files, pid: string, n: string, name: string)
    requires JsonName(n) && JsonName(name) && PastMigration(fs, name)
    ensures Views(RestoreTrail(fs, pid, n), name) ==
            if n == name then RestoreViews(View(fs, name))
            else seq(|RestoreTrail(fs, pid, n)|, i => View(fs, name))
    ensures forall state | state in RestoreTrail(fs, pid, n) :: PastMigration(state, name)
  {
    if n == name {
      RestoreSeen(fs, pid, name);
    } else {
      RestoreUnseen(fs, pid, n, name);
      UnseenViews(RestoreTrail(fs, pid, n), View(fs, name), name);
    }
    if MARKER in fs { TrailsKeepMarker(fs, pid, n, Null, AllowEmpty); }
  }

  lemma CatalogEventSeen(sys: System, e: Event, name: string)
    requires !e.Boot? && !e.BootCut? && JsonName(e.name) && JsonName(name) && PastMigration(sys.files, name)
    ensures Next(View(sys.files, name), View(Exec(sys, e).files, name), e, sys.up, name)
    ensures PastMigration(Exec(sys, e).files, name)
  {
    var fs, pid, n := sys.files, sys.pid, e.name;
    if e.Save? || e.SaveCut? {
      SaveEventSeen(fs, pid, n, e.value, e.mode, name);
      ViewOfAfter(fs, SaveTrail(fs, pid, n, e.value, e.mode), name);
      if e.SaveCut? { CutOffSeen(fs, SaveTrail(fs, pid, n, e.value, e.mode), e.after, name); }
    } else {
      RestoreEventSeen(fs, pid, n, name);
      ViewOfAfter(fs, RestoreTrail(fs, pid, n), name);
      if e.LoadCut? { CutOffSeen(fs, RestoreTrail(fs, pid, n), e.after, name); }
    }
  }

  lemma CutBootFiles(sys: System, e: Event)
    requires e.BootCut?
    ensures Exec(sys, e).files == CutOff(sys.files, Startup(sys.files, e.pid).trail, e.after)
  {
  }

  lemma BootFiles(sys: System, e: Event)
    requires e.Boot?
    ensures Exec(sys, e).files == After(sys.files, Startup(sys.files, e.pid).trail)
  {
  }

  lemma BootSeen(sys: System, e: Event, name: string)
    requires (e.Boot? || e.BootCut?) && name in CATALOGS && PastMigration(sys.files, name)
    ensures Next(View(sys.files, name), View(Exec(sys, e).files, name), e, sys.up, name)
    ensures PastMigration(Exec(sys, e).files, name)
  {
    var trail := Startup(sys.files, e.pid).trail;
    StartupSeen(sys.files, e.pid, name);
    if e.BootCut? {
      CutBootFiles(sys, e);
      CutOffSeen(sys.files, trail, e.after, name);
      CutOffIsThere(sys.files, trail, e.after);
    } else {
      BootFiles(sys, e);
    }
  }

  /** Every event of a run does to the three files of a catalog what `Next` says, and to no
      other catalog anything. */
  lemma ExecSeen(sys: System, e: Event, name: string)
    requires name in CATALOGS && OnCatalogs([e]) && PastMigration(sys.files, name)
    ensures Next(View(sys.files, name), View(Exec(sys, e).files, name), e, sys.up, name)
    ensures PastMigration(Exec(sys, e).files, name)
  {
    assert e in [e];
    if e.Boot? || e.BootCut? {
      BootSeen(sys, e, name);
    } else {
      CatalogNamesAreValid();
      CatalogEventSeen(sys, e, name);
    }
  }

  // ---- A whole run, seen from one catalog ----

  predicate UpAfter(up: bool, e: Event) { e.Boot? || (up && (e.Save? || e.Load?)) }

  predicate UpAtEnd(up: bool, es: seq<Event>)
    decreases |es|
  {
    if es == [] then up else UpAtEnd(UpAfter(up, es[0]), es[1..])
  }

  /** Steps of `Next`, one for each event, lead from `c` to `d`. */
  ghost predicate Reaches(c: Catalog, up: bool, es: seq<Event>, d: Catalog, name: string)
    decreases |es|
  {
    if es == [] then d == c
    else exists m :: Next(c, m, es[0], up, name) && Reaches(m, UpAfter(up, es[0]), es[1..], d, name)
  }

  lemma {:induction false} RunReaches(sys: System, es: seq<Event>, name: string)
    requires name in CATALOGS && OnCatalogs(es) && PastMigration(sys.files, name)
    ensures Reaches(View(sys.files, name), sys.up, es, View(Run(sys, es).files, name), name)
    ensures PastMigration(Run(sys, es).files, name)
    ensures Run(sys, es).up == UpAtEnd(sys.up, es)
    decreases |es|
  {
    if es != [] {
      ExecSeen(sys, es[0], name);
      UpAfterExec(sys, es[0]);
      RunReaches(Exec(sys, es[0]), es[1..], name);
    }
  }

  lemma UpAfterExec(sys: System, e: Event)
    ensures Exec(sys, e).up == UpAfter(sys.up, e)
  {
  }
}
