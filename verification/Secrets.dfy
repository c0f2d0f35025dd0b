/** The mirror directory never holds a secret: not in a catalog's copy, not in its `.bak` or
    temporary file, and not in any state that a crash can expose. */
module Secrets {
  import opened Json
  import opened Durable
  import opened Recovery

  predicate MirrorClean(fs: Files) {
    forall p | p in fs && p.root.Mirror? && fs[p].Doc? :: SecretFree(fs[p].value)
  }

  predicate AllClean(trail: seq<Files>) { forall fs | fs in trail :: MirrorClean(fs) }

  lemma WriteKeepsClean(fs: Files, pid: string, p: Path, content: Content)
    requires MirrorClean(fs) && (p.root.Mirror? && content.Doc? ==> SecretFree(content.value))
    ensures AllClean(AtomicWriteTrail(fs, pid, p, content))
  {
  }

  lemma EndIsClean(fs: Files, trail: seq<Files>)
    requires MirrorClean(fs) && AllClean(trail)
    ensures MirrorClean(After(fs, trail))
    ensures forall after: nat :: MirrorClean(CutOff(fs, trail, after))
  {
    if trail != [] { assert trail[|trail| - 1] in trail; }
  }

  lemma SaveKeepsClean(fs: Files, pid: string, name: string, value: Value, mode: WriteMode)
    requires MirrorClean(fs)
    ensures AllClean(SaveTrail(fs, pid, name, value, mode))
  {
    var first := AtomicWriteTrail(fs, pid, Path(Primary, name), Doc(value));
    WriteKeepsClean(fs, pid, Path(Primary, name), Doc(value));
    EndIsClean(fs, first);
    StripLeavesNoSecret(value);
    WriteKeepsClean(After(fs, first), pid, Path(Mirror, name), Doc(Strip(value)));
  }

  lemma RestoreKeepsClean(fs: Files, pid: string, name: string)
    requires MirrorClean(fs)
    ensures AllClean(RestoreTrail(fs, pid, name))
  {
    if ChosenIn(fs, name).Some? {
      WriteKeepsClean(fs, pid, Path(Primary, name), Doc(ChosenIn(fs, name).value));
    }
  }

  lemma {:induction false} RestoreAllKeepsClean(fs: Files, pid: string, names: seq<string>)
    requires MirrorClean(fs)
    ensures AllClean(RestoreAll(fs, pid, names).trail)
    decreases |names|, pid
  {
    if names != [] {
      var trail := RestoreTrail(fs, pid, names[0]);
      RestoreKeepsClean(fs, pid, names[0]);
      EndIsClean(fs, trail);
      RestoreAllKeepsClean(After(fs, trail), pid, names[1..]);
    }
  }

  lemma {:induction false} MigrateDirKeepsClean(fs: Files, legacy: Root, names: seq<string>)
    requires MirrorClean(fs)
    ensures AllClean(MigrateDir(fs, legacy, names).trail)
    decreases |names|, legacy
  {
    if names != [] {
      var trail := MigrateOneTrail(fs, legacy, names[0]);
      EndIsClean(fs, trail);
      MigrateDirKeepsClean(After(fs, trail), legacy, names[1..]);
    }
  }

  lemma {:induction false} MigrateDirsKeepsClean(fs: Files, roots: seq<Root>, names: seq<string>)
    requires MirrorClean(fs)
    ensures AllClean(MigrateDirs(fs, roots, names).trail)
    decreases |roots|, |names|
  {
    if roots != [] {
      var trail := MigrateDir(fs, roots[0], names).trail;
      MigrateDirKeepsClean(fs, roots[0], names);
      EndIsClean(fs, trail);
      MigrateDirsKeepsClean(After(fs, trail), roots[1..], names);
    }
  }

  lemma MarkerKeepsClean(fs: Files)
    requires MirrorClean(fs)
    ensures MirrorClean(fs[MARKER := Garbled])
  {
  }

  lemma MigrationKeepsClean(fs: Files)
    requires MirrorClean(fs)
    ensures AllClean(MigrateLegacy(fs).trail)
  {
    if MARKER !in fs {
      var copied := MigrateDirs(fs, LEGACY_ROOTS, MIGRATED).trail;
      MigrateDirsKeepsClean(fs, LEGACY_ROOTS, MIGRATED);
      EndIsClean(fs, copied);
      MarkerKeepsClean(After(fs, copied));
    }
  }

  lemma RestoresKeepClean(fs: Files, pid: string, migrated: Work, catalogs: seq<string>)
    requires MirrorClean(fs) && AllClean(migrated.trail)
    ensures AllClean(RestoreAfter(fs, pid, migrated, catalogs).trail)
  {
    EndIsClean(fs, migrated.trail);
    var ready := After(fs, migrated.trail);
    var restored := RestoreAll(ready, pid, catalogs);
    RestoreAllKeepsClean(ready, pid, catalogs);
    EndIsClean(ready, restored.trail);
    Joined(fs, [], migrated.trail, restored.trail);
    var names := migrated.names + restored.names;
    WriteKeepsClean(After(ready, restored.trail), pid, Path(Primary, NOTICE_FILE), Doc(NoticeDocument(names)));
  }

  lemma StartupKeepsClean(fs: Files, pid: string)
    requires MirrorClean(fs)
    ensures AllClean(Startup(fs, pid).trail)
  {
    MigrationKeepsClean(fs);
    RestoresKeepClean(fs, pid, MigrateLegacy(fs), CATALOGS);
  }

  lemma BootKeepsClean(sys: System, e: Event)
    requires MirrorClean(sys.files) && (e.Boot? || e.BootCut?)
    ensures MirrorClean(Exec(sys, e).files)
  {
    StartupKeepsClean(sys.files, e.pid);
    EndIsClean(sys.files, Startup(sys.files, e.pid).trail);
    if e.BootCut? { CutBootFiles(sys, e); } else { BootFiles(sys, e); }
  }

  lemma EventKeepsClean(sys: System, e: Event)
    requires MirrorClean(sys.files)
    ensures MirrorClean(Exec(sys, e).files)
  {
    match e {
      case Boot(_) => BootKeepsClean(sys, e);
      case BootCut(_, _) => BootKeepsClean(sys, e);
      case Save(name, value, mode) =>
        SaveKeepsClean(sys.files, sys.pid, name, value, mode);
        EndIsClean(sys.files, SaveTrail(sys.files, sys.pid, name, value, mode));
      case SaveCut(name, value, mode, _) =>
        SaveKeepsClean(sys.files, sys.pid, name, value, mode);
        EndIsClean(sys.files, SaveTrail(sys.files, sys.pid, name, value, mode));
      case Load(name) =>
        RestoreKeepsClean(sys.files, sys.pid, name);
        EndIsClean(sys.files, RestoreTrail(sys.files, sys.pid, name));
      case LoadCut(name, _) =>
        RestoreKeepsClean(sys.files, sys.pid, name);
        EndIsClean(sys.files, RestoreTrail(sys.files, sys.pid, name));
    }
  }

  /** Whatever is saved, loaded and started up, and wherever it is cut off, no document in the
      mirror directory has a secret at any depth. */
  lemma {:induction false} MirrorNeverHoldsSecrets(sys: System, es: seq<Event>)
    requires MirrorClean(sys.files)
    ensures MirrorClean(Run(sys, es).files)
    decreases |es|
  {
    if es != [] {
      EventKeepsClean(sys, es[0]);
      MirrorNeverHoldsSecrets(Exec(sys, es[0]), es[1..]);
    }
  }
}
