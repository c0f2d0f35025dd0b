/** The durable catalog store: one file per catalog in the primary directory, its `.bak`
    beside it, and a secret-free copy in the mirror directory.

    A `Files` value is what a crash leaves behind. Every operation is described by its
    trail, the states it passes through one file-system step at a time, so that "a crash
    after any step" is "any state of the trail". Creating or copying a file passes through
    a state where the target holds only part of its bytes (`Garbled`); a rename does not. */
module Durable {
  import opened Wrappers
  import opened Json

  datatype Root = Primary | Mirror | Legacy(index: nat)

  datatype Path = Path(root: Root, file: string)

  /** The bytes of a file: a document, or something that does not parse as one. */
  datatype Content = Garbled | Doc(value: Value)

  type Files = map<Path, Content>

  datatype WriteMode = KeepRecords | AllowEmpty

  datatype Error = InvalidName | WouldEmpty

  const CATALOGS: seq<string> :=
    ["connections.json", "device-history.json", "db-connections.json", "ai-engineer.json",
     "k8s-kubeconfig-paths.json", "k8s-ssh-bindings.json", "entity-layout.json",
     "browser-history.json", "browser-bookmarks.json", "db-queries.json"]

  const NOTICE_FILE := "catalog-restore-notice.json"

  const MARKER := Path(Primary, ".legacy-product-dir-migrated")

  /** The catalogs that an older product kept in a directory of its own. */
  const MIGRATED: seq<string> := ["k8s-kubeconfig-paths.json", "k8s-ssh-bindings.json"]

  const LEGACY_ROOTS: seq<Root> := [Legacy(0), Legacy(1)]

  // ---- Paths ----

  predicate HasDotDot(name: string) {
    exists i | 0 <= i < |name| - 1 :: name[i] == '.' && name[i + 1] == '.'
  }

  predicate ValidName(name: string) {
    name != "" && '/' !in name && '\\' !in name && !HasDotDot(name)
  }

  /** Names ending in ".json": their `.bak` and temporary files have other endings. */
  predicate JsonName(name: string) { |name| >= 5 && name[|name| - 5..] == ".json" }

  function BakPath(p: Path): Path { Path(p.root, p.file + ".bak") }

  function TmpPath(p: Path, pid: string): Path { Path(p.root, "." + p.file + "." + pid + ".tmp") }

  // ---- Reading ----

  function Parsed(content: Option<Content>): Option<Value> {
    if content.Some? && content.value.Doc? then Some(content.value.value) else None
  }

  predicate Full(document: Option<Value>) { document.Some? && HasRecords(document.value) }

  function Look(fs: Files, p: Path): Option<Content> { if p in fs then Some(fs[p]) else None }

  function Read(fs: Files, p: Path): Option<Value> { Parsed(Look(fs, p)) }

  // ---- Trails ----

  function After(fs: Files, trail: seq<Files>): Files {
    if trail == [] then fs else trail[|trail| - 1]
  }

  function AtomicWriteTrail(fs: Files, pid: string, p: Path, content: Content): seq<Files> {
    var tmp := TmpPath(p, pid);
    var written := fs[tmp := content];
    if p in fs then
      var kept := written[BakPath(p) := fs[p]];
      var removed := kept - {p};
      [fs[tmp := Garbled], written, written[BakPath(p) := Garbled], kept, removed, (removed - {tmp})[p := content]]
    else
      [fs[tmp := Garbled], written, (written - {tmp})[p := content]]
  }

  predicate Refused(fs: Files, name: string, value: Value, mode: WriteMode) {
    mode == KeepRecords && !HasRecords(value) && Full(Read(fs, Path(Primary, name)))
  }

  function SaveTrail(fs: Files, pid: string, name: string, value: Value, mode: WriteMode): seq<Files> {
    if Refused(fs, name, value, mode) then [] else WriteBothTrail(fs, pid, name, value)
  }

  function WriteBothTrail(fs: Files, pid: string, name: string, value: Value): seq<Files> {
    var first := AtomicWriteTrail(fs, pid, Path(Primary, name), Doc(value));
    first + AtomicWriteTrail(After(fs, first), pid, Path(Mirror, name), Doc(Strip(value)))
  }

  /** The document that recovery writes to the primary, if it writes one. */
  function Chosen(primary: Option<Content>, bak: Option<Content>, mirror: Option<Content>): Option<Value> {
    if Full(Parsed(primary)) then None
    else if Full(Parsed(mirror)) then Parsed(mirror)
    else if Parsed(primary).None? && Full(Parsed(bak)) then Parsed(bak)
    else None
  }

  function ChosenIn(fs: Files, name: string): Option<Value> {
    var p := Path(Primary, name);
    Chosen(Look(fs, p), Look(fs, BakPath(p)), Look(fs, Path(Mirror, name)))
  }

  function RestoreTrail(fs: Files, pid: string, name: string): seq<Files> {
    match ChosenIn(fs, name)
    case Some(value) => AtomicWriteTrail(fs, pid, Path(Primary, name), Doc(value))
    case None => []
  }

  /** What a start-up step did: its trail and the names it reports. */
  datatype Work = Work(trail: seq<Files>, names: seq<string>)

  function RestoreAll(fs: Files, pid: string, names: seq<string>): Work
    decreases |names|, pid
  {
    if names == [] then Work([], [])
    else
      var trail := RestoreTrail(fs, pid, names[0]);
      var rest := RestoreAll(After(fs, trail), pid, names[1..]);
      Work(trail + rest.trail, (if trail == [] then [] else [names[0]]) + rest.names)
  }

  /** The migration copies straight onto the catalog file, without a temporary file. */
  function MigrateOneTrail(fs: Files, legacy: Root, name: string): seq<Files> {
    var dest := Path(Primary, name);
    if Full(Read(fs, Path(legacy, name))) && !Full(Read(fs, dest)) then
      [fs[dest := Garbled], fs[dest := fs[Path(legacy, name)]]]
    else []
  }

  function MigrateDir(fs: Files, legacy: Root, names: seq<string>): Work
    decreases |names|, legacy
  {
    if names == [] then Work([], [])
    else
      var trail := MigrateOneTrail(fs, legacy, names[0]);
      var rest := MigrateDir(After(fs, trail), legacy, names[1..]);
      Work(trail + rest.trail, (if trail == [] then [] else [names[0]]) + rest.names)
  }

  function MigrateDirs(fs: Files, roots: seq<Root>, names: seq<string>): Work
    decreases |roots|, |names|
  {
    if roots == [] then Work([], [])
    else
      var first := MigrateDir(fs, roots[0], names);
      var rest := MigrateDirs(After(fs, first.trail), roots[1..], names);
      Work(first.trail + rest.trail, first.names + rest.names)
  }

  function MigrateLegacy(fs: Files): Work {
    if MARKER in fs then Work([], [])
    else
      var copied := MigrateDirs(fs, LEGACY_ROOTS, MIGRATED);
      Work(copied.trail + [After(fs, copied.trail)[MARKER := Garbled]], copied.names)
  }

  function NoticeDocument(names: seq<string>): Value {
    Array(seq(|names|, i requires 0 <= i < |names| => Str(names[i])))
  }

  /** A document that lists the names, in order. */
  predicate Announces(document: Option<Value>, names: seq<string>) {
    && document.Some? && document.value.Array? && |document.value.items| == |names|
    && forall i | 0 <= i < |names| :: document.value.items[i] == Str(names[i])
  }

  function Startup(fs: Files, pid: string): Work { RestoreAfter(fs, pid, MigrateLegacy(fs), CATALOGS) }

  /** The restores and the notice that follow the migration. */
  function RestoreAfter(fs: Files, pid: string, migrated: Work, catalogs: seq<string>): Work {
    var restored := RestoreAll(After(fs, migrated.trail), pid, catalogs);
    var done := migrated.trail + restored.trail;
    var names := migrated.names + restored.names;
    Work(done + NoticeTrail(After(fs, done), pid, names), names)
  }

  function NoticeTrail(fs: Files, pid: string, names: seq<string>): seq<Files> {
    if names == [] then []
    else AtomicWriteTrail(fs, pid, Path(Primary, NOTICE_FILE), Doc(NoticeDocument(names)))
  }

  /** What a finished write leaves: the document, the old one beside it, no temporary file, and
      every other file as it was. */
  lemma WriteEffect(fs: Files, pid: string, p: Path, content: Content)
    ensures var end := After(fs, AtomicWriteTrail(fs, pid, p, content));
            && Look(end, p) == Some(content) && TmpPath(p, pid) !in end
            && Look(end, BakPath(p)) == Look(fs, if p in fs then p else BakPath(p))
            && forall q | q !in [p, BakPath(p), TmpPath(p, pid)] :: Look(end, q) == Look(fs, q)
  {
    LastLetters(p, pid);
    assert |TmpPath(p, pid).file| > |p.file| && |BakPath(p).file| > |p.file|;
  }

  /** How many records a document has, 0 for none at all. */
  function Records(document: Option<Value>): nat { if document.Some? then RecordCount(document.value) else 0 }

  /** Two trails one after the other, behind what was seen before. */
  lemma Joined(fs: Files, seen: seq<Files>, a: seq<Files>, b: seq<Files>)
    ensures After(fs, a + b) == After(After(fs, a), b)
    ensures seen + a + b == seen + (a + b)
  {
    if b == [] { assert a + b == a; }
  }

  lemma InTurn<T>(a: seq<T>, b: seq<T>, c: seq<T>)
    ensures a + (b + c) == a + b + c
  {
  }

  /** The first of several restores, seen from the state `next` that it leads to. */
  lemma RestoreAllStep(fs: Files, next: Files, seen: seq<Files>, pid: string, names: seq<string>)
    requires names != [] && next == After(fs, RestoreTrail(fs, pid, names[0]))
    ensures var whole, rest := RestoreAll(fs, pid, names), RestoreAll(next, pid, names[1..]);
            && seen + whole.trail == seen + RestoreTrail(fs, pid, names[0]) + rest.trail
            && whole.names == (if ChosenIn(fs, names[0]).Some? then [names[0]] else []) + rest.names
            && After(fs, whole.trail) == After(next, rest.trail)
  {
    Joined(fs, seen, RestoreTrail(fs, pid, names[0]), RestoreAll(next, pid, names[1..]).trail);
  }

  lemma MigrateDirStep(fs: Files, next: Files, seen: seq<Files>, legacy: Root, names: seq<string>)
    requires names != [] && next == After(fs, MigrateOneTrail(fs, legacy, names[0]))
    ensures var whole, rest := MigrateDir(fs, legacy, names), MigrateDir(next, legacy, names[1..]);
            && seen + whole.trail == seen + MigrateOneTrail(fs, legacy, names[0]) + rest.trail
            && whole.names == (if MigrateOneTrail(fs, legacy, names[0]) != [] then [names[0]] else []) + rest.names
            && After(fs, whole.trail) == After(next, rest.trail)
  {
    Joined(fs, seen, MigrateOneTrail(fs, legacy, names[0]), MigrateDir(next, legacy, names[1..]).trail);
  }

  // ---- The code, one file-system step at a time ----

  class Disk {
    var files: Files
    const pid: string
    /** Every state a crash could have exposed so far, in order. */
    ghost var trail: seq<Files>

    constructor (files: Files, pid: string)
      ensures this.files == files && this.pid == pid && trail == []
    {
      this.files, this.pid := files, pid;
      trail := [];
    }

    /** Create or truncate `p`, then write its bytes. */
    method WriteFile(p: Path, content: Content)
      modifies this
      ensures files == old(files)[p := content]
      ensures trail == old(trail) + [old(files)[p := Garbled], files]
    {
      files := files[p := Garbled];
      trail := trail + [files];
      files := files[p := content];
      trail := trail + [files];
      assert files == old(files)[p := content];
    }

    method CopyFile(source: Path, dest: Path)
      requires source in files && source != dest
      modifies this
      ensures files == old(files)[dest := old(files)[source]]
      ensures trail == old(trail) + [old(files)[dest := Garbled], files]
    {
      WriteFile(dest, files[source]);
    }

    method ReplaceFile(tmp: Path, dest: Path)
      requires tmp in files && tmp != dest
      modifies this
      ensures files == (old(files) - {dest} - {tmp})[dest := old(files)[tmp]]
      ensures trail == old(trail) + (if dest in old(files) then [old(files) - {dest}] else []) + [files]
    {
      if dest in files {
        files := files - {dest};
        trail := trail + [files];
      }
      files := (files - {tmp})[dest := files[tmp]];
      trail := trail + [files];
      assert dest !in old(files) ==> old(files) - {dest} == old(files);
    }

    method AtomicWrite(p: Path, content: Content)
      modifies this
      ensures trail == old(trail) + AtomicWriteTrail(old(files), pid, p, content)
      ensures files == After(old(files), AtomicWriteTrail(old(files), pid, p, content))
      ensures Look(files, p) == Some(content) && TmpPath(p, pid) !in files
      ensures Look(files, BakPath(p)) == Look(old(files), if p in old(files) then p else BakPath(p))
      ensures forall q | q !in [p, BakPath(p), TmpPath(p, pid)] :: Look(files, q) == Look(old(files), q)
    {
      WriteEffect(files, pid, p, content);
      var tmp := TmpPath(p, pid);
      assert |tmp.file| > |p.file|;
      WriteFile(tmp, content);
      if p in files {
        assert |BakPath(p).file| > |p.file|;
        assert BakPath(p) != tmp by { LastLetters(p, pid); }
        CopyFile(p, BakPath(p));
      }
      ReplaceFile(tmp, p);
      assert p !in old(files) ==> old(files)[tmp := content] - {p} == old(files)[tmp := content];
    }

    /** `document_path` in front of an operation on catalog `name`. */
    function PathOf(root: Root, name: string): Result<Path, Error> {
      if ValidName(name) then Ok(Path(root, name)) else Err(InvalidName)
    }

    /** `read_value(..).map(record_count).unwrap_or(0)`, compared with zero. */
    method HoldsRecords(p: Path) returns (full: bool)
      ensures full == Full(Read(files, p))
    {
      var value := Read(files, p);
      if value.None? {
        return false;
      }
      var count := CountRecords(value.value);
      full := count > 0;
    }

    /** A refused save, and one with a bad name, changes nothing. An accepted save goes
        through `SaveTrail`, which writes the primary before the mirror. */
    method SaveValue(name: string, value: Value, mode: WriteMode) returns (r: Result<(), Error>)
      modifies this
      ensures !ValidName(name) ==> r == Err(InvalidName) && files == old(files) && trail == old(trail)
      ensures ValidName(name) && Refused(old(files), name, value, mode) ==>
                r == Err(WouldEmpty) && files == old(files) && trail == old(trail)
      ensures ValidName(name) && !Refused(old(files), name, value, mode) ==> r == Ok(())
      ensures ValidName(name) ==> trail == old(trail) + SaveTrail(old(files), pid, name, value, mode)
      ensures ValidName(name) ==> files == After(old(files), SaveTrail(old(files), pid, name, value, mode))
      ensures ValidName(name) ==>
                (r == Err(WouldEmpty) <==>
                   mode == KeepRecords && RecordCount(value) == 0 && Records(Read(old(files), Path(Primary, name))) > 0)
      ensures r.Ok? ==> Read(files, Path(Primary, name)) == Some(value) && Read(files, Path(Mirror, name)) == Some(Strip(value))
    {
      var path := PathOf(Primary, name);
      if path.Err? {
        return Err(path.error);
      }
      var refused := WouldEmptyCatalog(name, value, mode);
      if refused {
        return Err(WouldEmpty);
      }
      WriteBoth(name, value);
      r := Ok(());
    }

    /** The guard looks at the primary only. */
    method WouldEmptyCatalog(name: string, value: Value, mode: WriteMode) returns (refused: bool)
      ensures refused == Refused(files, name, value, mode)
    {
      var present := HoldsRecords(Path(Primary, name));
      var incoming := CountRecords(value);
      refused := mode == KeepRecords && incoming == 0 && present;
    }

    method WriteBoth(name: string, value: Value)
      modifies this
      ensures trail == old(trail) + WriteBothTrail(old(files), pid, name, value)
      ensures files == After(old(files), WriteBothTrail(old(files), pid, name, value))
      ensures Read(files, Path(Primary, name)) == Some(value) && Read(files, Path(Mirror, name)) == Some(Strip(value))
    {
      ghost var first := AtomicWriteTrail(files, pid, Path(Primary, name), Doc(value));
      AtomicWrite(Path(Primary, name), Doc(value));
      ghost var second := AtomicWriteTrail(files, pid, Path(Mirror, name), Doc(Strip(value)));
      AtomicWrite(Path(Mirror, name), Doc(Strip(value)));
      Joined(old(files), old(trail), first, second);
    }

    /** True exactly when a document was written back to the primary. */
    method RestoreIfNeeded(name: string) returns (restored: bool)
      modifies this
      ensures !ValidName(name) ==> !restored && files == old(files) && trail == old(trail)
      ensures ValidName(name) ==> trail == old(trail) + RestoreTrail(old(files), pid, name)
      ensures ValidName(name) ==> files == After(old(files), RestoreTrail(old(files), pid, name))
      ensures ValidName(name) ==> (restored <==> ChosenIn(old(files), name).Some?)
      ensures ValidName(name) ==>
                (restored <==>
                   var primary := Read(old(files), Path(Primary, name));
                   Records(primary) == 0
                   && (Records(Read(old(files), Path(Mirror, name))) > 0
                       || (primary.None? && Records(Read(old(files), BakPath(Path(Primary, name)))) > 0)))
      ensures restored ==>
                var mirror := Read(old(files), Path(Mirror, name));
                Read(files, Path(Primary, name)) ==
                if Records(mirror) > 0 then mirror else Read(old(files), BakPath(Path(Primary, name)))
    {
      var path := PathOf(Primary, name);
      if path.Err? {
        return false;
      }
      var present := HoldsRecords(path.value);
      if present {
        return false;
      }
      var chosen := None;
      var mirrored := HoldsRecords(Path(Mirror, name));
      if mirrored {
        chosen := Read(files, Path(Mirror, name));
      } else if Read(files, path.value).None? {
        var kept := HoldsRecords(BakPath(path.value));
        if kept {
          chosen := Read(files, BakPath(path.value));
        }
      }
      assert chosen == ChosenIn(files, name);
      if chosen.None? {
        return false;
      }
      AtomicWrite(path.value, Doc(chosen.value));
      restored := true;
    }

    method LoadValue(name: string) returns (r: Result<Value, Error>)
      modifies this
      ensures !ValidName(name) ==> r == Err(InvalidName) && files == old(files) && trail == old(trail)
      ensures ValidName(name) ==> trail == old(trail) + RestoreTrail(old(files), pid, name)
      ensures ValidName(name) ==> files == After(old(files), RestoreTrail(old(files), pid, name))
      ensures ValidName(name) ==> r == Ok(Loaded(files, name))
      ensures r.Ok? ==> r.value == match Read(files, Path(Primary, name)) case Some(value) => value case None => Object(map[])
    {
      var _ := RestoreIfNeeded(name);
      var path := PathOf(Primary, name);
      if path.Err? {
        return Err(path.error);
      }
      var value := Read(files, path.value);
      r := Ok(if value.Some? then value.value else EMPTY_OBJECT);
    }

    method MigrateOne(legacy: Root, name: string) returns (copied: bool)
      requires legacy.Legacy?
      modifies this
      ensures files == After(old(files), MigrateOneTrail(old(files), legacy, name))
      ensures trail == old(trail) + MigrateOneTrail(old(files), legacy, name)
      ensures copied <==> MigrateOneTrail(old(files), legacy, name) != []
      ensures copied <==> Records(Read(old(files), Path(legacy, name))) > 0 && Records(Read(old(files), Path(Primary, name))) == 0
      ensures copied ==> Read(files, Path(Primary, name)) == Read(old(files), Path(legacy, name))
      ensures forall q | q != Path(Primary, name) || !copied :: Look(files, q) == Look(old(files), q)
    {
      var src, dest := Path(legacy, name), Path(Primary, name);
      var offered := HoldsRecords(src);
      var present := HoldsRecords(dest);
      copied := offered && !present;
      if copied {
        CopyFile(src, dest);
      }
    }

    method MigrateLegacyDir(legacy: Root, names: seq<string>) returns (copied: seq<string>)
      requires legacy.Legacy?
      modifies this
      ensures copied == MigrateDir(old(files), legacy, names).names
      ensures files == After(old(files), MigrateDir(old(files), legacy, names).trail)
      ensures trail == old(trail) + MigrateDir(old(files), legacy, names).trail
    {
      copied := [];
      ghost var start, seen, whole := files, trail, MigrateDir(files, legacy, names);
      assert names[0..] == names;
      for i := 0 to |names|
        invariant OnTheWay(start, seen, whole, copied, MigrateDir(files, legacy, names[i..]))
      {
        var hit := MigrateNext(legacy, names[i..], start, seen, whole, copied);
        assert names[i..][1..] == names[i + 1..];
        copied := copied + hit;
      }
    }

    /** A loop over catalogs or directories that is part way through: `whole` is what it is to
        do from the start, `found` the names reported so far and `rest` what is still to do. */
    ghost predicate OnTheWay(start: Files, seen: seq<Files>, whole: Work, found: seq<string>, rest: Work)
      reads this
    {
      && whole.names == found + rest.names
      && seen + whole.trail == trail + rest.trail
      && After(start, whole.trail) == After(files, rest.trail)
    }

    /** One round of the loop: the first of the names still to do. */
    method MigrateNext(legacy: Root, names: seq<string>, ghost start: Files, ghost seen: seq<Files>, ghost whole: Work,
                       ghost found: seq<string>)
        returns (hit: seq<string>)
      requires legacy.Legacy? && names != [] && OnTheWay(start, seen, whole, found, MigrateDir(files, legacy, names))
      modifies this
      ensures OnTheWay(start, seen, whole, found + hit, MigrateDir(files, legacy, names[1..]))
    {
      var copied := MigrateOne(legacy, names[0]);
      hit := if copied then [names[0]] else [];
      MigrateDirStep(old(files), files, old(trail), legacy, names);
      InTurn(found, hit, MigrateDir(files, legacy, names[1..]).names);
    }

    method MigrateRoots(roots: seq<Root>, names: seq<string>) returns (copied: seq<string>)
      requires forall i | 0 <= i < |roots| :: roots[i].Legacy?
      modifies this
      ensures copied == MigrateDirs(old(files), roots, names).names
      ensures files == After(old(files), MigrateDirs(old(files), roots, names).trail)
      ensures trail == old(trail) + MigrateDirs(old(files), roots, names).trail
    {
      copied := [];
      ghost var start, seen, whole := files, trail, MigrateDirs(files, roots, names);
      assert roots[0..] == roots;
      for i := 0 to |roots|
        invariant OnTheWay(start, seen, whole, copied, MigrateDirs(files, roots[i..], names))
      {
        assert roots[i..][0] == roots[i];
        var more := MigrateNextRoot(roots[i..], names, start, seen, whole, copied);
        assert roots[i..][1..] == roots[i + 1..];
        copied := copied + more;
      }
    }

    /** One round of the loop: the first of the directories still to do. */
    method MigrateNextRoot(roots: seq<Root>, names: seq<string>, ghost start: Files, ghost seen: seq<Files>, ghost whole: Work,
                           ghost found: seq<string>)
        returns (copied: seq<string>)
      requires roots != [] && roots[0].Legacy? && OnTheWay(start, seen, whole, found, MigrateDirs(files, roots, names))
      modifies this
      ensures OnTheWay(start, seen, whole, found + copied, MigrateDirs(files, roots[1..], names))
    {
      copied := MigrateLegacyDir(roots[0], names);
      ghost var first, rest := MigrateDir(old(files), roots[0], names), MigrateDirs(files, roots[1..], names);
      Joined(old(files), old(trail), first.trail, rest.trail);
      InTurn(found, copied, rest.names);
    }

    method MigrateOnce() returns (copied: seq<string>)
      modifies this
      ensures copied == MigrateLegacy(old(files)).names
      ensures files == After(old(files), MigrateLegacy(old(files)).trail)
      ensures trail == old(trail) + MigrateLegacy(old(files)).trail
      ensures MARKER in files && (MARKER in old(files) ==> files == old(files) && copied == [])
    {
      copied := [];
      if MARKER in files {
        return;
      }
      copied := MigrateRoots(LEGACY_ROOTS, MIGRATED);
      ghost var whole := MigrateDirs(old(files), LEGACY_ROOTS, MIGRATED);
      Joined(old(files), old(trail), whole.trail, [files[MARKER := Garbled]]);
      files := files[MARKER := Garbled];
      trail := trail + [files];
    }

    /** The loop over all catalogs, with the names it reports. */
    method RestoreCatalogs(catalogs: seq<string>) returns (names: seq<string>)
      requires forall name | name in catalogs :: ValidName(name)
      modifies this
      ensures names == RestoreAll(old(files), pid, catalogs).names
      ensures files == After(old(files), RestoreAll(old(files), pid, catalogs).trail)
      ensures trail == old(trail) + RestoreAll(old(files), pid, catalogs).trail
    {
      names := [];
      ghost var start, seen, whole := files, trail, RestoreAll(files, pid, catalogs);
      assert catalogs[0..] == catalogs;
      for i := 0 to |catalogs|
        invariant OnTheWay(start, seen, whole, names, RestoreAll(files, pid, catalogs[i..]))
      {
        var hit := RestoreNext(catalogs[i..], start, seen, whole, names);
        assert catalogs[i..][1..] == catalogs[i + 1..];
        names := names + hit;
      }
    }

    /** One round of the loop: the first of the catalogs still to do. */
    method RestoreNext(catalogs: seq<string>, ghost start: Files, ghost seen: seq<Files>, ghost whole: Work,
                       ghost found: seq<string>)
        returns (hit: seq<string>)
      requires catalogs != [] && ValidName(catalogs[0]) && OnTheWay(start, seen, whole, found, RestoreAll(files, pid, catalogs))
      modifies this
      ensures OnTheWay(start, seen, whole, found + hit, RestoreAll(files, pid, catalogs[1..]))
    {
      var restored := RestoreIfNeeded(catalogs[0]);
      hit := if restored then [catalogs[0]] else [];
      RestoreAllStep(old(files), files, old(trail), pid, catalogs);
      InTurn(found, hit, RestoreAll(files, pid, catalogs[1..]).names);
    }

    /** Restores every catalog in turn, after a one-time migration, and leaves a notice. */
    method StartUp() returns (names: seq<string>)
      modifies this
      ensures names == Startup(old(files), pid).names
      ensures files == After(old(files), Startup(old(files), pid).trail)
      ensures trail == old(trail) + Startup(old(files), pid).trail
      ensures names != [] ==> Announces(Read(files, Path(Primary, NOTICE_FILE)), names)
    {
      names := MigrateOnce();
      ghost var migrated := MigrateLegacy(old(files)).trail;
      ghost var restored := RestoreAll(files, pid, CATALOGS).trail;
      CatalogNamesAreValid();
      var more := RestoreCatalogs(CATALOGS);
      Joined(old(files), old(trail), migrated, restored);
      names := names + more;
      Joined(old(files), old(trail), migrated + restored, NoticeTrail(files, pid, names));
      PersistNotice(names);
    }

    method PersistNotice(names: seq<string>)
      modifies this
      ensures files == After(old(files), NoticeTrail(old(files), pid, names))
      ensures trail == old(trail) + NoticeTrail(old(files), pid, names)
      ensures names == [] ==> files == old(files)
      ensures names != [] ==> Announces(Read(files, Path(Primary, NOTICE_FILE)), names)
    {
      if names != [] {
        AtomicWrite(Path(Primary, NOTICE_FILE), Doc(NoticeDocument(names)));
      }
    }
  }

  /** What a caller of `load_value` gets to see. */
  function Loaded(fs: Files, name: string): Value {
    var value := Read(fs, Path(Primary, name));
    if value.Some? then value.value else EMPTY_OBJECT
  }

  lemma LastLetters(p: Path, pid: string)
    ensures BakPath(p) != TmpPath(p, pid)
  {
    var bak, tmp := BakPath(p).file, TmpPath(p, pid).file;
    assert bak[|bak| - 1] == 'k' && tmp[|tmp| - 1] == 'p';
  }

  /** A name is refused exactly when it is empty or could lead out of the directory. */
  lemma RefusedNames(name: string)
    ensures !ValidName(name) <==>
            name == "" || exists a: string, b: string :: name in {a + "/" + b, a + "\\" + b, a + ".." + b}
  {
    if '/' in name { CutAt(name, '/', "/"); }
    if '\\' in name { CutAt(name, '\\', "\\"); }
    if HasDotDot(name) {
      var i :| 0 <= i < |name| - 1 && name[i] == '.' && name[i + 1] == '.';
      assert name == name[..i] + ".." + name[i + 2..];
    }
    forall a: string, b: string | name in {a + "/" + b, a + "\\" + b, a + ".." + b} ensures !ValidName(name) {
      assert name[|a|] in name;
      if name == a + ".." + b { assert name[|a|] == '.' && name[|a| + 1] == '.'; }
    }
  }

  lemma CutAt(name: string, c: char, sign: string)
    requires c in name && sign == [c]
    ensures exists a: string, b: string :: name == a + sign + b
  {
    var i :| 0 <= i < |name| && name[i] == c;
    assert name == name[..i] + sign + name[i + 1..];
  }

  lemma CatalogNamesAreValid()
    ensures forall name | name in CATALOGS :: ValidName(name) && JsonName(name)
  {
    forall i | 0 <= i < |CATALOGS| ensures ValidName(CATALOGS[i]) {
      if i < 2 { FirstNames(i); } else if i < 4 { EarlyNames(i); } else if i < 6 { MiddleNames(i); }
      else if i < 8 { LateNames(i); } else { LastNames(i); }
    }
  }

  lemma FirstNames(i: nat)
    requires i < 2
    ensures ValidName(CATALOGS[i])
  {
  }

  lemma EarlyNames(i: nat)
    requires 2 <= i < 4
    ensures ValidName(CATALOGS[i])
  {
  }

  lemma MiddleNames(i: nat)
    requires 4 <= i < 6
    ensures ValidName(CATALOGS[i])
  {
  }

  lemma LateNames(i: nat)
    requires 6 <= i < 8
    ensures ValidName(CATALOGS[i])
  {
  }

  lemma LastNames(i: nat)
    requires 8 <= i < 10
    ensures ValidName(CATALOGS[i])
  {
  }
}
