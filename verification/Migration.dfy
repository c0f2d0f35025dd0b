/** The one-time migration out of an older product's directories, with crashes after any step
    of any number of start-ups. */
module Migration {
  import opened Wrappers
  import opened Durable
  import opened CatalogViews
  import opened Recovery
  import opened CrashSafety

  function Current(fs: Files, name: string): Option<Content> { Look(fs, Path(Primary, name)) }

  function Old(fs: Files, legacy: Root, name: string): Option<Content> { Look(fs, Path(legacy, name)) }

  predicate Legacies(roots: seq<Root>) { forall i | 0 <= i < |roots| :: roots[i].Legacy? }

  /** What the catalog should hold in the end: its own records if it has any, else those of
      the first old directory that has some. */
  function Wanted(fs: Files, roots: seq<Root>, name: string): Option<Content>
    decreases |roots|, name
  {
    if Full(Parsed(Current(fs, name))) || roots == [] then Current(fs, name)
    else if Full(Parsed(Old(fs, roots[0], name))) then Old(fs, roots[0], name)
    else Wanted(fs, roots[1..], name)
  }

  /** The migration only reads the old directories. */
  ghost predicate SameSources(a: Files, b: Files) {
    && (MARKER in a <==> MARKER in b)
    && forall p: Path | p.root.Legacy? :: Look(a, p) == Look(b, p)
  }

  /** From `a` to `b`, nothing was copied to the catalog, or records to one that had none. */
  predicate Copied(a: Files, b: Files, legacy: Root, name: string) {
    || Current(b, name) == Current(a, name)
    || (!Full(Parsed(Current(a, name))) && Full(Parsed(Old(a, legacy, name))) && Current(b, name) == Old(a, legacy, name))
  }

  /** The same in the middle of the copy, when the catalog may be torn. */
  predicate Copying(a: Files, b: Files, legacy: Root, name: string) {
    || Copied(a, b, legacy, name)
    || (!Full(Parsed(Current(a, name))) && Full(Parsed(Old(a, legacy, name))) && Current(b, name) == Some(Garbled))
  }

  /** Records that are there are never overwritten. */
  predicate Respected(a: Files, b: Files, name: string) {
    Full(Parsed(Current(a, name))) ==> Current(b, name) == Current(a, name)
  }

  lemma CopyIsSeen(fs: Files, n: string, content: Content)
    requires JsonName(n)
    ensures SameSources(fs, fs[Path(Primary, n) := content])
  {
    var marker := MARKER.file;
    assert n[|n| - 1] == n[|n| - 5..][4] == 'n';
    assert marker[|marker| - 1] == 'd';
  }

  lemma MigrateOneKeeps(fs: Files, legacy: Root, n: string, name: string)
    requires legacy.Legacy? && JsonName(n)
    ensures forall s | s in MigrateOneTrail(fs, legacy, n) :: SameSources(fs, s) && Copying(fs, s, legacy, name)
    ensures var next := After(fs, MigrateOneTrail(fs, legacy, n));
            && SameSources(fs, next) && Copied(fs, next, legacy, name)
            && (n == name && Full(Parsed(Old(fs, legacy, name))) ==> Full(Parsed(Current(next, name))))
  {
    CopyIsSeen(fs, n, Garbled);
    if Path(legacy, n) in fs { CopyIsSeen(fs, n, fs[Path(legacy, n)]); }
  }

  lemma {:induction false} MigrateDirKeeps(fs: Files, legacy: Root, names: seq<string>, name: string)
    requires legacy.Legacy? && forall i | 0 <= i < |names| :: JsonName(names[i])
    ensures forall s | s in MigrateDir(fs, legacy, names).trail :: SameSources(fs, s) && Copying(fs, s, legacy, name)
    ensures var next := After(fs, MigrateDir(fs, legacy, names).trail);
            && SameSources(fs, next) && Copied(fs, next, legacy, name)
            && (name in names && Full(Parsed(Old(fs, legacy, name))) ==> Full(Parsed(Current(next, name))))
    decreases |names|, name
  {
    if names != [] {
      var trail := MigrateOneTrail(fs, legacy, names[0]);
      var next := After(fs, trail);
      MigrateOneKeeps(fs, legacy, names[0], name);
      MigrateDirKeeps(next, legacy, names[1..], name);
      Joined(fs, [], trail, MigrateDir(next, legacy, names[1..]).trail);
    }
  }

  lemma OtherCopyUnseen(fs: Files, legacy: Root, n: string, name: string)
    requires legacy.Legacy? && n != name
    ensures var next := After(fs, MigrateOneTrail(fs, legacy, n));
            Current(next, name) == Current(fs, name) && Old(next, legacy, name) == Old(fs, legacy, name)
  {
  }

  lemma OwnCopySeen(fs: Files, legacy: Root, name: string)
    requires legacy.Legacy?
    ensures var next := After(fs, MigrateOneTrail(fs, legacy, name));
            MigrateOneTrail(fs, legacy, name) != [] ==> Full(Parsed(Current(next, name)))
  {
  }

  /** The names that are reported are those of the catalogs that had no records and got some. */
  lemma {:induction false} MigrateDirReports(fs: Files, legacy: Root, names: seq<string>, name: string)
    requires legacy.Legacy?
    ensures name in MigrateDir(fs, legacy, names).names <==>
            name in names && Records(Parsed(Old(fs, legacy, name))) > 0 && Records(Parsed(Current(fs, name))) == 0
    decreases |names|, name
  {
    if names != [] {
      var trail := MigrateOneTrail(fs, legacy, names[0]);
      MigrateDirReports(After(fs, trail), legacy, names[1..], name);
      if names[0] == name { OwnCopySeen(fs, legacy, name); } else { OtherCopyUnseen(fs, legacy, names[0], name); }
    }
  }

  lemma {:induction false} SourcesDecide(a: Files, b: Files, roots: seq<Root>, name: string)
    requires SameSources(a, b) && Legacies(roots) && Current(a, name) == Current(b, name)
    ensures Wanted(a, roots, name) == Wanted(b, roots, name)
    decreases |roots|, name
  {
    if roots != [] { SourcesDecide(a, b, roots[1..], name); }
  }

  /** In every state on the way, and at the end, what is wanted is what was wanted. */
  lemma {:induction false} MigrateDirsKeeps(fs: Files, roots: seq<Root>, names: seq<string>, name: string)
    requires Legacies(roots) && name in names && forall i | 0 <= i < |names| :: JsonName(names[i])
    ensures forall s | s in MigrateDirs(fs, roots, names).trail ::
              SameSources(fs, s) && Wanted(s, roots, name) == Wanted(fs, roots, name) && Respected(fs, s, name)
    ensures var next := After(fs, MigrateDirs(fs, roots, names).trail);
            SameSources(fs, next) && Current(next, name) == Wanted(fs, roots, name)
    decreases |roots|, name
  {
    if roots != [] {
      var trail := MigrateDir(fs, roots[0], names).trail;
      var next := After(fs, trail);
      var rest := MigrateDirs(next, roots[1..], names).trail;
      MigrateDirKeeps(fs, roots[0], names, name);
      MigrateDirsKeeps(next, roots[1..], names, name);
      Joined(fs, [], trail, rest);
      forall s | s in trail ensures Wanted(s, roots, name) == Wanted(fs, roots, name) {
        CopyingKeepsWanted(fs, s, roots, name);
      }
      CopyingKeepsWanted(fs, next, roots, name);
      forall s | s in rest ensures Wanted(s, roots, name) == Wanted(fs, roots, name) {
        FirstRootIsDone(next, s, roots, name);
      }
      FirstRootIsDone(next, next, roots, name);
    }
  }

  lemma CopyingKeepsWanted(fs: Files, s: Files, roots: seq<Root>, name: string)
    requires roots != [] && Legacies(roots) && SameSources(fs, s) && Copying(fs, s, roots[0], name)
    ensures Wanted(s, roots, name) == Wanted(fs, roots, name)
  {
    if Current(s, name) == Current(fs, name) { SourcesDecide(fs, s, roots, name); }
  }

  lemma FirstRootIsDone(next: Files, s: Files, roots: seq<Root>, name: string)
    requires roots != [] && Legacies(roots) && SameSources(next, s)
    requires Full(Parsed(Old(next, roots[0], name))) ==> Full(Parsed(Current(next, name)))
    requires Wanted(s, roots[1..], name) == Wanted(next, roots[1..], name) && Respected(next, s, name)
    ensures Wanted(s, roots, name) == Wanted(next, roots, name)
  {
  }

  // ---- Start-ups that are cut off ----

  /** Up to the marker the migration can be done again; from then on the catalog has its records. */
  ghost predicate Pending(fs: Files, roots: seq<Root>, wanted: Option<Content>, name: string) {
    if MARKER in fs then Current(fs, name) == wanted else Wanted(fs, roots, name) == wanted
  }

  lemma MarkedAfterCopies(fs: Files, roots: seq<Root>, names: seq<string>, name: string)
    requires MARKER !in fs && Legacies(roots)
    requires name in names && forall i | 0 <= i < |names| :: JsonName(names[i])
    ensures var wanted, trail := Wanted(fs, roots, name), MigrateDirs(fs, roots, names).trail;
            var marked := After(fs, trail)[MARKER := Garbled];
            && (forall s | s in trail + [marked] :: Pending(s, roots, wanted, name))
            && Current(marked, name) == wanted
  {
    MigrateDirsKeeps(fs, roots, names, name);
    MarkerUnseen(After(fs, MigrateDirs(fs, roots, names).trail), name);
  }

  lemma LegacyTrail(fs: Files)
    requires MARKER !in fs
    ensures var copied := MigrateDirs(fs, LEGACY_ROOTS, MIGRATED).trail;
            MigrateLegacy(fs).trail == copied + [After(fs, copied)[MARKER := Garbled]]
  {
  }

  lemma MigrationKeeps(fs: Files, name: string)
    requires name in MIGRATED && MARKER !in fs
    ensures var wanted, trail := Wanted(fs, LEGACY_ROOTS, name), MigrateLegacy(fs).trail;
            && (forall s | s in trail :: Pending(s, LEGACY_ROOTS, wanted, name))
            && MARKER in After(fs, trail) && Current(After(fs, trail), name) == wanted
  {
    CatalogNamesAreValid();
    MigratedAreCatalogs();
    MarkedAfterCopies(fs, LEGACY_ROOTS, MIGRATED, name);
    LegacyTrail(fs);
  }

  lemma MigratedAreCatalogs()
    ensures forall i | 0 <= i < |MIGRATED| :: MIGRATED[i] in CATALOGS
  {
    assert MIGRATED[0] == CATALOGS[4] && MIGRATED[1] == CATALOGS[5];
  }

  /** Once the records are there, what follows the migration leaves them alone. */
  lemma RestoresKeep(fs: Files, pid: string, migrated: Work, catalogs: seq<string>, name: string)
    requires name in catalogs && NOTICE_FILE !in catalogs && forall n | n in catalogs :: JsonName(n)
    requires var ready := After(fs, migrated.trail); MARKER in ready && Full(Parsed(Current(ready, name)))
    ensures var ready, trail := After(fs, migrated.trail), RestoreAfter(fs, pid, migrated, catalogs).trail;
            && (forall s | s in trail :: s in migrated.trail || (MARKER in s && Current(s, name) == Current(ready, name)))
            && MARKER in After(fs, trail) && Current(After(fs, trail), name) == Current(ready, name)
  {
    var ready := After(fs, migrated.trail);
    var restored := RestoreAll(ready, pid, catalogs);
    RestoreAllSeen(ready, pid, catalogs, name);
    Joined(fs, [], migrated.trail, restored.trail);
    var names, finished := migrated.names + restored.names, After(ready, restored.trail);
    NoticeUnseen(finished, pid, names, name);
    Joined(fs, [], migrated.trail + restored.trail, NoticeTrail(finished, pid, names));
    assert RestoreViews(View(ready, name)) == [];
  }

  lemma StartupKeeps(fs: Files, pid: string, wanted: Option<Content>, name: string)
    requires name in MIGRATED && Pending(fs, LEGACY_ROOTS, wanted, name) && Full(Parsed(wanted))
    ensures forall s | s in Startup(fs, pid).trail :: Pending(s, LEGACY_ROOTS, wanted, name)
    ensures MARKER in After(fs, Startup(fs, pid).trail) && Current(After(fs, Startup(fs, pid).trail), name) == wanted
  {
    CatalogNamesAreValid();
    MigratedAreCatalogs();
    if MARKER !in fs { MigrationKeeps(fs, name); }
    RestoresKeep(fs, pid, MigrateLegacy(fs), CATALOGS, name);
  }

  lemma CutIsPending(fs: Files, trail: seq<Files>, after: nat, roots: seq<Root>, wanted: Option<Content>, name: string)
    requires Pending(fs, roots, wanted, name) && forall s | s in trail :: Pending(s, roots, wanted, name)
    ensures Pending(CutOff(fs, trail, after), roots, wanted, name)
  {
    if 0 < after <= |trail| { assert trail[after - 1] in trail; }
    if trail != [] { assert trail[|trail| - 1] in trail; }
  }

  lemma CutStartupKeeps(fs: Files, pid: string, after: nat, wanted: Option<Content>, name: string)
    requires name in MIGRATED && Pending(fs, LEGACY_ROOTS, wanted, name) && Full(Parsed(wanted))
    ensures Pending(CutOff(fs, Startup(fs, pid).trail, after), LEGACY_ROOTS, wanted, name)
  {
    StartupKeeps(fs, pid, wanted, name);
    CutIsPending(fs, Startup(fs, pid).trail, after, LEGACY_ROOTS, wanted, name);
  }

  lemma CutBootKeeps(sys: System, e: Event, wanted: Option<Content>, name: string)
    requires e.BootCut? && name in MIGRATED && Pending(sys.files, LEGACY_ROOTS, wanted, name) && Full(Parsed(wanted))
    ensures Pending(Exec(sys, e).files, LEGACY_ROOTS, wanted, name)
  {
    CutBootFiles(sys, e);
    CutStartupKeeps(sys.files, e.pid, e.after, wanted, name);
  }

  lemma {:induction false} CutBootsKeep(sys: System, boots: seq<Event>, wanted: Option<Content>, name: string)
    requires name in MIGRATED && Pending(sys.files, LEGACY_ROOTS, wanted, name) && Full(Parsed(wanted)) && CutBoots(boots)
    ensures Pending(Run(sys, boots).files, LEGACY_ROOTS, wanted, name)
    decreases |boots|
  {
    if boots != [] {
      assert boots[0] in boots;
      CutBootKeeps(sys, boots[0], wanted, name);
      CutBootsKeep(Exec(sys, boots[0]), boots[1..], wanted, name);
    }
  }

  /** However often a start-up is cut off, the one that finishes leaves a migrated catalog with
      the records it had, or else with those of the first old directory that has some. */
  lemma MigrationSurvivesCrashes(sys: System, boots: seq<Event>, pid: string, name: string)
    requires name in MIGRATED && MARKER !in sys.files && CutBoots(boots)
    requires Full(Parsed(Wanted(sys.files, LEGACY_ROOTS, name)))
    ensures var end := Exec(Run(sys, boots), Boot(pid));
            MARKER in end.files && Current(end.files, name) == Wanted(sys.files, LEGACY_ROOTS, name)
  {
    var wanted := Wanted(sys.files, LEGACY_ROOTS, name);
    CutBootsKeep(sys, boots, wanted, name);
    BootFiles(Run(sys, boots), Boot(pid));
    StartupKeeps(Run(sys, boots).files, pid, wanted, name);
  }
}
