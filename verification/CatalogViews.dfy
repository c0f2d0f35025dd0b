/** One catalog at a time: its primary, `.bak` and mirror, and how the trails of the store
    look from there. Work on one catalog never shows in another. */
module CatalogViews {
  import opened Wrappers
  import opened Json
  import opened Durable

  datatype Catalog = Catalog(primary: Option<Content>, bak: Option<Content>, mirror: Option<Content>)

  function View(fs: Files, name: string): Catalog {
    var p := Path(Primary, name);
    Catalog(Look(fs, p), Look(fs, BakPath(p)), Look(fs, Path(Mirror, name)))
  }

  function Views(trail: seq<Files>, name: string): seq<Catalog> {
    seq(|trail|, i requires 0 <= i < |trail| => View(trail[i], name))
  }

  /** What an atomic write of the primary looks like. */
  function PrimaryViews(c: Catalog, content: Content): seq<Catalog> {
    if c.primary.Some? then
      [c, c, c.(bak := Some(Garbled)), c.(bak := c.primary), c.(bak := c.primary, primary := None),
       c.(bak := c.primary, primary := Some(content))]
    else [c, c, c.(primary := Some(content))]
  }

  /** What an atomic write of the mirror looks like. */
  function MirrorViews(c: Catalog, content: Content): seq<Catalog> {
    if c.mirror.Some? then [c, c, c, c, c.(mirror := None), c.(mirror := Some(content))]
    else [c, c, c.(mirror := Some(content))]
  }

  function Last(c: Catalog, views: seq<Catalog>): Catalog {
    if views == [] then c else views[|views| - 1]
  }

  function SaveViews(c: Catalog, value: Value, mode: WriteMode): seq<Catalog> {
    if mode == KeepRecords && !HasRecords(value) && Full(Parsed(c.primary)) then []
    else
      var first := PrimaryViews(c, Doc(value));
      first + MirrorViews(Last(c, first), Doc(Strip(value)))
  }

  function RestoreViews(c: Catalog): seq<Catalog> {
    match Chosen(c.primary, c.bak, c.mirror)
    case Some(value) => PrimaryViews(c, Doc(value))
    case None => []
  }

  function Restored(c: Catalog): Catalog { Last(c, RestoreViews(c)) }

  // ---- Trails seen from a catalog ----

  lemma FileNamesDiffer(a: Path, b: Path, pid: string)
    requires JsonName(a.file) && JsonName(b.file)
    ensures TmpPath(a, pid) != b && BakPath(a) != b && TmpPath(a, pid) != BakPath(b)
    ensures a != b ==> BakPath(a) != BakPath(b)
  {
    var name, tmp, bak := b.file, TmpPath(a, pid).file, BakPath(a).file;
    assert name[|name| - 1] == name[|name| - 5..][4] == 'n';
    assert tmp[|tmp| - 1] == 'p' && bak[|bak| - 1] == 'k';
    var other := BakPath(b).file;
    assert other[|other| - 1] == 'k';
    if BakPath(a) == BakPath(b) {
      assert bak[..|bak| - 4] == a.file && other[..|other| - 4] == b.file;
    }
  }

  lemma PrimaryWriteSeen(fs: Files, pid: string, name: string, content: Content)
    requires JsonName(name)
    ensures Views(AtomicWriteTrail(fs, pid, Path(Primary, name), content), name) == PrimaryViews(View(fs, name), content)
  {
    var p := Path(Primary, name);
    FileNamesDiffer(p, p, pid);
    FileNamesDiffer(p, Path(Mirror, name), pid);
  }

  lemma MirrorWriteSeen(fs: Files, pid: string, name: string, content: Content)
    requires JsonName(name)
    ensures Views(AtomicWriteTrail(fs, pid, Path(Mirror, name), content), name) == MirrorViews(View(fs, name), content)
  {
    var p := Path(Mirror, name);
    FileNamesDiffer(p, p, pid);
    FileNamesDiffer(p, Path(Primary, name), pid);
  }

  /** A write to another file leaves the catalog as it is, at every step. */
  lemma OtherWriteUnseen(fs: Files, pid: string, p: Path, content: Content, name: string)
    requires JsonName(name) && JsonName(p.file) && p.file != name
    ensures forall state | state in AtomicWriteTrail(fs, pid, p, content) :: View(state, name) == View(fs, name)
  {
    FileNamesDiffer(p, Path(Primary, name), pid);
    FileNamesDiffer(p, Path(Mirror, name), pid);
    FileNamesDiffer(Path(Primary, name), p, pid);
  }

  lemma ViewsJoin(a: seq<Files>, b: seq<Files>, name: string)
    ensures Views(a + b, name) == Views(a, name) + Views(b, name)
  {
  }

  lemma ViewOfAfter(fs: Files, trail: seq<Files>, name: string)
    ensures View(After(fs, trail), name) == Last(View(fs, name), Views(trail, name))
  {
  }

  lemma SaveSeen(fs: Files, pid: string, name: string, value: Value, mode: WriteMode)
    requires JsonName(name)
    ensures Views(SaveTrail(fs, pid, name, value, mode), name) == SaveViews(View(fs, name), value, mode)
  {
    if !Refused(fs, name, value, mode) {
      var first := AtomicWriteTrail(fs, pid, Path(Primary, name), Doc(value));
      var second := AtomicWriteTrail(After(fs, first), pid, Path(Mirror, name), Doc(Strip(value)));
      PrimaryWriteSeen(fs, pid, name, Doc(value));
      ViewOfAfter(fs, first, name);
      MirrorWriteSeen(After(fs, first), pid, name, Doc(Strip(value)));
      ViewsJoin(first, second, name);
    }
  }

  lemma RestoreSeen(fs: Files, pid: string, name: string)
    requires JsonName(name)
    ensures Views(RestoreTrail(fs, pid, name), name) == RestoreViews(View(fs, name))
  {
    if ChosenIn(fs, name).Some? {
      PrimaryWriteSeen(fs, pid, name, Doc(ChosenIn(fs, name).value));
    }
  }
}
