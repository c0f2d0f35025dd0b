/** What the catalog store promises over whole runs with crashes. */
module CrashSafety {
  import opened Wrappers
  import opened Json
  import opened Durable
  import opened CatalogViews
  import opened Recovery

  // ---- A catalog that is never emptied on purpose keeps its records ----

  /** A document that was saved, or the mirror's form of one. */
  ghost predicate Known(d: Option<Value>, saved: seq<Value>) {
    d.Some? && (d.value in saved || exists s | s in saved :: d.value == Strip(s))
  }

  /** The documents that a run saves, or starts to save, to `name`. */
  function Documents(es: seq<Event>, name: string): seq<Value> {
    if es == [] then []
    else if Saves(es[0], name) then [es[0].value] + Documents(es[1..], name)
    else Documents(es[1..], name)
  }

  predicate KeepsRecords(es: seq<Event>, name: string) {
    OnCatalogs(es) && forall e | e in es :: Saves(e, name) ==> e.mode == KeepRecords
  }

  ghost predicate Held(c: Catalog, saved: seq<Value>) {
    Full(Parsed(c.primary)) && Known(Parsed(c.primary), saved)
  }

  /** While the system is down the primary may be missing, but then the `.bak` has it. */
  ghost predicate Kept(c: Catalog, up: bool, saved: seq<Value>) {
    && (Full(Parsed(c.mirror)) ==> Known(Parsed(c.mirror), saved))
    && (Held(c, saved) || (!up && c.primary.None? && Full(Parsed(c.bak)) && Known(Parsed(c.bak), saved)))
  }

  /** How a write of the primary looks from outside at each of its steps. */
  predicate PrimaryStep(c: Catalog, d: Catalog, content: Content) {
    d.mirror == c.mirror &&
    (d.primary == c.primary || d.primary == Some(content) || (d.primary == None && d.bak == c.primary))
  }

  lemma PrimarySteps(c: Catalog, content: Content)
    ensures forall d | d in PrimaryViews(c, content) :: PrimaryStep(c, d, content)
    ensures Last(c, PrimaryViews(c, content)).primary == Some(content)
    ensures Last(c, PrimaryViews(c, content)).mirror == c.mirror
  {
  }

  lemma PrimaryWriteKeeps(c: Catalog, value: Value, saved: seq<Value>)
    requires Kept(c, true, saved) && value in saved && HasRecords(value)
    ensures forall d | d in PrimaryViews(c, Doc(value)) :: Kept(d, false, saved)
    ensures Kept(Last(c, PrimaryViews(c, Doc(value))), true, saved)
  {
    PrimarySteps(c, Doc(value));
    forall d | PrimaryStep(c, d, Doc(value)) ensures Kept(d, false, saved) {
    }
  }

  lemma MirrorWriteKeeps(c: Catalog, value: Value, saved: seq<Value>)
    requires Kept(c, true, saved) && value in saved
    ensures forall d | d in MirrorViews(c, Doc(Strip(value))) :: Kept(d, true, saved)
  {
  }

  lemma SaveKeeps(c: Catalog, value: Value, saved: seq<Value>)
    requires Kept(c, true, saved) && value in saved
    ensures forall d | d in SaveViews(c, value, KeepRecords) :: Kept(d, false, saved)
    ensures Kept(Last(c, SaveViews(c, value, KeepRecords)), true, saved)
  {
    if HasRecords(value) {
      PrimaryWriteKeeps(c, value, saved);
      MirrorWriteKeeps(Last(c, PrimaryViews(c, Doc(value))), value, saved);
    }
  }

  lemma RestoreKeeps(c: Catalog, up: bool, saved: seq<Value>)
    requires Kept(c, up, saved)
    ensures forall d | d in RestoreViews(c) :: Kept(d, false, saved)
    ensures Kept(Restored(c), true, saved)
  {
  }

  lemma KnownGrows(d: Option<Value>, saved: seq<Value>, more: seq<Value>)
    requires Known(d, saved)
    ensures Known(d, saved + more)
  {
  }

  lemma KeptGrows(c: Catalog, up: bool, saved: seq<Value>, more: seq<Value>)
    requires Kept(c, up, saved)
    ensures Kept(c, up, saved + more)
  {
    if Known(Parsed(c.mirror), saved) { KnownGrows(Parsed(c.mirror), saved, more); }
    if Known(Parsed(c.primary), saved) { KnownGrows(Parsed(c.primary), saved, more); }
    if Known(Parsed(c.bak), saved) { KnownGrows(Parsed(c.bak), saved, more); }
  }

  lemma CutIsAView(c: Catalog, views: seq<Catalog>, after: nat)
    ensures CutView(c, views, after) == c || CutView(c, views, after) in views
  {
  }

  lemma EventKeeps(c: Catalog, d: Catalog, e: Event, up: bool, name: string, saved: seq<Value>)
    requires Next(c, d, e, up, name) && Kept(c, up, saved)
    requires Saves(e, name) ==> e.mode == KeepRecords && e.value in saved
    ensures Kept(d, UpAfter(up, e), saved)
  {
    RestoreKeeps(c, up, saved);
    if up && Saves(e, name) {
      SaveKeeps(c, e.value, saved);
      if e.SaveCut? { CutIsAView(c, SaveViews(c, e.value, e.mode), e.after); }
    }
    if e.LoadCut? { CutIsAView(c, RestoreViews(c), e.after); }
  }

  lemma DocumentsGrow(es: seq<Event>, name: string, saved: seq<Value>)
    requires es != []
    ensures var more := if Saves(es[0], name) then [es[0].value] else [];
            saved + more + Documents(es[1..], name) == saved + Documents(es, name)
  {
  }

  lemma {:induction false} RunKeeps(c: Catalog, up: bool, es: seq<Event>, d: Catalog, name: string, saved: seq<Value>)
    requires Reaches(c, up, es, d, name) && KeepsRecords(es, name) && Kept(c, up, saved)
    ensures Kept(d, UpAtEnd(up, es), saved + Documents(es, name))
    decreases |es|
  {
    if es == [] {
      assert saved + Documents(es, name) == saved;
    } else {
      var e, rest := es[0], es[1..];
      var more := if Saves(e, name) then [e.value] else [];
      var m :| Next(c, m, e, up, name) && Reaches(m, UpAfter(up, e), rest, d, name);
      assert e in es;
      KeptGrows(c, up, saved, more);
      EventKeeps(c, m, e, up, name, saved + more);
      RunKeeps(m, UpAfter(up, e), rest, d, name, saved + more);
      DocumentsGrow(es, name, saved);
    }
  }

  /** Start with records in the primary. After any run of saves that do not ask for an empty
      catalog, loads, and crashes after any step, whenever the system is up again the primary
      is readable, has records, and is a document that was saved or its secret-free form. */
  lemma RecordsSurvive(sys: System, es: seq<Event>, name: string, saved: seq<Value>)
    requires name in CATALOGS && PastMigration(sys.files, name) && sys.up
    requires KeepsRecords(es, name)
    requires Held(View(sys.files, name), saved)
    requires Full(Read(sys.files, Path(Mirror, name))) ==> Known(Read(sys.files, Path(Mirror, name)), saved)
    ensures var end := Run(sys, es);
            end.up ==> Full(Read(end.files, Path(Primary, name)))
                       && Known(Read(end.files, Path(Primary, name)), saved + Documents(es, name))
  {
    RunReaches(sys, es, name);
    RunKeeps(View(sys.files, name), sys.up, es, View(Run(sys, es).files, name), name, saved);
  }

  // ---- Recovery itself is crash-safe, except from an unreadable primary ----

  /** The primary is there but unreadable, and only the `.bak` has the records: an atomic
      write would first copy the unreadable file over the `.bak`. */
  predicate Fragile(c: Catalog) {
    c.primary == Some(Garbled) && !Full(Parsed(c.mirror)) && Full(Parsed(c.bak))
  }

  /** Whatever step a recovery is cut off at, the next one finds the same document, exactly
      when the primary is not unreadable with the `.bak` as the only source. */
  lemma RecoveryIsCrashSafe(c: Catalog)
    ensures (forall d | d in RestoreViews(c) :: Restored(d).primary == Restored(c).primary) <==> !Fragile(c)
    ensures !Fragile(c) ==> forall d | d in RestoreViews(c) :: !Fragile(d)
  {
    if Fragile(c) {
      var torn := RestoreViews(c)[2];
      assert torn in RestoreViews(c) && RestoreViews(torn) == [];
    }
  }

  predicate CutBoots(es: seq<Event>) { forall e | e in es :: e.BootCut? }

  /** Start-ups that are cut off again and again change nothing in what a last one brings. */
  lemma {:induction false} BootsKeepTrying(c: Catalog, up: bool, boots: seq<Event>, d: Catalog, name: string)
    requires Reaches(c, up, boots, d, name) && CutBoots(boots) && !Fragile(c)
    ensures Restored(d).primary == Restored(c).primary && !Fragile(d)
    decreases |boots|
  {
    if boots != [] {
      var m :| Next(c, m, boots[0], up, name) && Reaches(m, UpAfter(up, boots[0]), boots[1..], d, name);
      assert boots[0] in boots && m in [c] + RestoreViews(c);
      RecoveryIsCrashSafe(c);
      BootsKeepTrying(m, UpAfter(up, boots[0]), boots[1..], d, name);
    }
  }

  // ---- A catalog with nothing to recover stays as it is ----

  predicate Settled(c: Catalog) { Chosen(c.primary, c.bak, c.mirror).None? }

  predicate NoSaves(es: seq<Event>, name: string) {
    OnCatalogs(es) && forall e | e in es :: !Saves(e, name)
  }

  lemma SettledStep(c: Catalog, d: Catalog, e: Event, up: bool, name: string)
    requires Next(c, d, e, up, name) && !Saves(e, name) && Settled(c)
    ensures d == c
  {
    assert RestoreViews(c) == [];
  }

  lemma {:induction false} SettledStays(c: Catalog, up: bool, es: seq<Event>, d: Catalog, name: string)
    requires Reaches(c, up, es, d, name) && NoSaves(es, name) && Settled(c)
    ensures d == c
    decreases |es|
  {
    if es != [] {
      var m :| Next(c, m, es[0], up, name) && Reaches(m, UpAfter(up, es[0]), es[1..], d, name);
      assert es[0] in es;
      SettledStep(c, m, es[0], up, name);
      SettledStays(c, UpAfter(up, es[0]), es[1..], d, name);
    }
  }

  lemma SaveEnd(c: Catalog, value: Value, mode: WriteMode)
    ensures var views := SaveViews(c, value, mode);
            views != [] ==> Last(c, views).primary == Some(Doc(value)) && Last(c, views).mirror == Some(Doc(Strip(value)))
  {
    var first := PrimaryViews(c, Doc(value));
    var written := Last(c, first);
    var second := MirrorViews(written, Doc(Strip(value)));
    assert Last(c, first + second) == Last(written, second);
  }

  lemma SaveSettles(c: Catalog, value: Value, mode: WriteMode)
    ensures var views := SaveViews(c, value, mode);
            views != [] ==> Settled(Last(c, views)) && Last(c, views).primary == Some(Doc(value))
  {
    SaveEnd(c, value, mode);
    StripKeepsRecordCount(value);
  }

  lemma SavedIsSettled(sys: System, name: string, value: Value, mode: WriteMode)
    requires name in CATALOGS && PastMigration(sys.files, name) && sys.up && !Refused(sys.files, name, value, mode)
    ensures var now := Exec(sys, Save(name, value, mode));
            && now.up && PastMigration(now.files, name)
            && Settled(View(now.files, name)) && View(now.files, name).primary == Some(Doc(value))
  {
    ExecSeen(sys, Save(name, value, mode), name);
    SaveSettles(View(sys.files, name), value, mode);
  }

  /** An accepted save is what every later load and start-up sees, cut off or not, also when
      the document is empty; and a refused save changes no file at all. */
  lemma AcceptedSaveIsFinal(sys: System, name: string, value: Value, mode: WriteMode, es: seq<Event>)
    requires name in CATALOGS && PastMigration(sys.files, name) && sys.up && NoSaves(es, name)
    ensures var end := Run(sys, [Save(name, value, mode)] + es);
            if mode == KeepRecords && RecordCount(value) == 0 && Records(Read(sys.files, Path(Primary, name))) > 0
            then Exec(sys, Save(name, value, mode)) == sys
            else Loaded(end.files, name) == value && View(end.files, name).primary == Some(Doc(value))
  {
    if !Refused(sys.files, name, value, mode) {
      var save := Save(name, value, mode);
      SavedIsSettled(sys, name, value, mode);
      assert ([save] + es)[1..] == es;
      RunReaches(Exec(sys, save), es, name);
      SettledStays(View(Exec(sys, save).files, name), true, es, View(Run(Exec(sys, save), es).files, name), name);
    }
  }

  /** So any document can be saved where there are no records yet, also one without records that
      is not meant to empty the catalog; and every later load sees it. */
  lemma NothingToLoseIsAccepted(sys: System, name: string, value: Value, mode: WriteMode, es: seq<Event>)
    requires name in CATALOGS && PastMigration(sys.files, name) && sys.up && NoSaves(es, name)
    requires Records(Read(sys.files, Path(Primary, name))) == 0
    ensures Loaded(Run(sys, [Save(name, value, mode)] + es).files, name) == value
  {
    AcceptedSaveIsFinal(sys, name, value, mode, es);
  }

  /** One save or load of a catalog leaves every other catalog's files alone, and a load that
      restored something leaves nothing for the next one to do. */
  lemma OneCatalogAtATime(sys: System, e: Event, name: string)
    requires name in CATALOGS && PastMigration(sys.files, name) && OnCatalogs([e]) && !e.Boot? && !e.BootCut?
    ensures e.name != name ==> View(Exec(sys, e).files, name) == View(sys.files, name)
    ensures e == Load(name) && sys.up ==> RestoreTrail(Exec(sys, e).files, sys.pid, name) == []
  {
    ExecSeen(sys, e, name);
    RestoreSettles(View(sys.files, name));
  }

  // ---- A save that is cut off is all or nothing, exactly when the mirror is not stale ----

  /** The old document, its secret-free form, or the new one. */
  function Outcomes(was: Value, update: Value): set<Value> { {was, Strip(was), update} }

  /** Cut the save off anywhere, start up any number of times, go on without further saves:
      what is seen in the end is the old document, its secret-free form, or the new one. */
  ghost predicate AllOrNothing(sys: System, name: string, was: Value, update: Value, mode: WriteMode) {
    forall after: nat, boots: seq<Event>, pid: string, es: seq<Event> | CutBoots(boots) && NoSaves(es, name) ::
      Loaded(Aftermath(sys, SaveCut(name, update, mode, after), boots, pid, es).files, name) in Outcomes(was, update)
  }

  function Aftermath(sys: System, crash: Event, boots: seq<Event>, pid: string, es: seq<Event>): System {
    Run(Exec(Run(Exec(sys, crash), boots), Boot(pid)), es)
  }

  lemma AftermathSeen(sys: System, crash: Event, boots: seq<Event>, pid: string, es: seq<Event>, name: string)
    requires name in CATALOGS && PastMigration(sys.files, name) && OnCatalogs([crash])
    requires CutBoots(boots) && NoSaves(es, name)
    requires !Fragile(View(Exec(sys, crash).files, name))
    ensures View(Aftermath(sys, crash, boots, pid, es).files, name).primary
            == Restored(View(Exec(sys, crash).files, name)).primary
  {
    ExecSeen(sys, crash, name);
    var down := Exec(sys, crash);
    var tried := Run(down, boots);
    var back := Exec(tried, Boot(pid));
    RunReaches(down, boots, name);
    BootsKeepTrying(View(down.files, name), down.up, boots, View(tried.files, name), name);
    ExecSeen(tried, Boot(pid), name);
    RestoreSettles(View(tried.files, name));
    RunReaches(back, es, name);
    SettledStays(View(back.files, name), back.up, es, View(Run(back, es).files, name), name);
  }

  function Recovered(d: Catalog): Option<Content> {
    match Chosen(d.primary, d.bak, d.mirror) case Some(value) => Some(Doc(value)) case None => d.primary
  }

  lemma RestoredIsRecovered(d: Catalog)
    ensures Restored(d).primary == Recovered(d)
  {
  }

  /** What recovery makes of it is one of the outcomes. */
  predicate EndsIn(d: Catalog, outcomes: set<Value>) {
    var end := Recovered(d);
    !Fragile(d) && Parsed(end).Some? && Parsed(end).value in outcomes
  }

  predicate EndsWell(d: Catalog, was: Value, update: Value) { EndsIn(d, Outcomes(was, update)) }

  lemma PrimaryStepEndsWell(c: Catalog, d: Catalog, was: Value, update: Value, outcomes: set<Value>)
    requires c.primary == Some(Doc(was)) && HasRecords(was) && PrimaryStep(c, d, Doc(update))
    requires was in outcomes && update in outcomes
    requires Full(Parsed(c.mirror)) ==> Parsed(c.mirror).value in outcomes
    ensures EndsIn(d, outcomes)
  {
  }

  lemma CutPrimaryEndsWell(c: Catalog, was: Value, update: Value)
    requires c.primary == Some(Doc(was)) && HasRecords(was)
    requires Full(Parsed(c.mirror)) ==> Parsed(c.mirror).value in Outcomes(was, update)
    ensures EndsWell(c, was, update)
    ensures forall d | d in PrimaryViews(c, Doc(update)) :: EndsWell(d, was, update)
  {
    PrimarySteps(c, Doc(update));
    forall d | PrimaryStep(c, d, Doc(update)) ensures EndsWell(d, was, update) {
      PrimaryStepEndsWell(c, d, was, update, Outcomes(was, update));
    }
  }

  predicate MirrorStep(c: Catalog, d: Catalog, content: Content) {
    d.primary == c.primary && (d.mirror == c.mirror || d.mirror == None || d.mirror == Some(content))
  }

  lemma ReadablePrimaryEndsWell(d: Catalog, update: Value, outcomes: set<Value>)
    requires d.primary == Some(Doc(update)) && update in outcomes
    requires !HasRecords(update) && Full(Parsed(d.mirror)) ==> Parsed(d.mirror).value in outcomes
    ensures EndsIn(d, outcomes)
  {
  }

  lemma MirrorStepEndsWell(c: Catalog, d: Catalog, update: Value, mirrored: Value, outcomes: set<Value>)
    requires c.primary == Some(Doc(update)) && update in outcomes && MirrorStep(c, d, Doc(mirrored))
    requires HasRecords(mirrored) <==> HasRecords(update)
    requires Full(Parsed(c.mirror)) ==> Parsed(c.mirror).value in outcomes
    ensures EndsIn(d, outcomes)
  {
    if d.mirror == Some(Doc(mirrored)) { assert Parsed(d.mirror) == Some(mirrored); }
    ReadablePrimaryEndsWell(d, update, outcomes);
  }

  lemma MirrorSteps(c: Catalog, content: Content)
    ensures forall d | d in MirrorViews(c, content) :: MirrorStep(c, d, content)
  {
  }

  lemma CutMirrorEndsWell(c: Catalog, was: Value, update: Value)
    requires c.primary == Some(Doc(update))
    requires Full(Parsed(c.mirror)) ==> Parsed(c.mirror).value in Outcomes(was, update)
    ensures forall d | d in MirrorViews(c, Doc(Strip(update))) :: EndsWell(d, was, update)
  {
    StripKeepsRecordCount(update);
    MirrorSteps(c, Doc(Strip(update)));
    forall d | MirrorStep(c, d, Doc(Strip(update))) ensures EndsWell(d, was, update) {
      MirrorStepEndsWell(c, d, update, Strip(update), Outcomes(was, update));
    }
  }

  lemma CutSaveEndsWell(c: Catalog, was: Value, update: Value, mode: WriteMode, after: nat)
    requires c.primary == Some(Doc(was)) && HasRecords(was)
    requires Full(Parsed(c.mirror)) ==> Parsed(c.mirror).value in Outcomes(was, update)
    ensures EndsWell(CutView(c, SaveViews(c, update, mode), after), was, update)
  {
    CutIsAView(c, SaveViews(c, update, mode), after);
    CutPrimaryEndsWell(c, was, update);
    PrimarySteps(c, Doc(update));
    CutMirrorEndsWell(Last(c, PrimaryViews(c, Doc(update))), was, update);
  }

  /** The two instants at which the files of a catalog are most exposed. */
  lemma SaveUnderWay(c: Catalog, update: Value, mode: WriteMode)
    requires Full(Parsed(c.primary)) && (mode == KeepRecords ==> HasRecords(update))
    ensures CutView(c, SaveViews(c, update, mode), 5) == c.(bak := c.primary, primary := None)
    ensures CutView(c, SaveViews(c, update, mode), 6) == c.(bak := c.primary, primary := Some(Doc(update)))
  {
  }

  lemma MissingPrimaryTakesMirror(c: Catalog)
    requires c.primary.None? && Full(Parsed(c.mirror))
    ensures !Fragile(c) && Restored(c).primary == c.mirror
  {
  }

  lemma StaleMirrorComesBack(sys: System, name: string, update: Value, mode: WriteMode)
    requires name in CATALOGS && PastMigration(sys.files, name) && sys.up
    requires Full(Read(sys.files, Path(Primary, name))) && Full(Read(sys.files, Path(Mirror, name)))
    requires mode == KeepRecords ==> HasRecords(update)
    ensures var crash := SaveCut(name, update, mode, 5);
            Loaded(Aftermath(sys, crash, [], "", []).files, name) == Read(sys.files, Path(Mirror, name)).value
  {
    var crash := SaveCut(name, update, mode, 5);
    ExecSeen(sys, crash, name);
    SaveUnderWay(View(sys.files, name), update, mode);
    MissingPrimaryTakesMirror(View(Exec(sys, crash).files, name));
    AftermathSeen(sys, crash, [], "", [], name);
  }

  lemma CutSaveIsAllOrNothing(sys: System, name: string, was: Value, update: Value, mode: WriteMode, after: nat,
                              boots: seq<Event>, pid: string, es: seq<Event>)
    requires name in CATALOGS && PastMigration(sys.files, name) && sys.up
    requires Read(sys.files, Path(Primary, name)) == Some(was) && HasRecords(was)
    requires var mirror := Read(sys.files, Path(Mirror, name)); Full(mirror) ==> mirror.value in Outcomes(was, update)
    requires CutBoots(boots) && NoSaves(es, name)
    ensures Loaded(Aftermath(sys, SaveCut(name, update, mode, after), boots, pid, es).files, name) in Outcomes(was, update)
  {
    ExecSeen(sys, SaveCut(name, update, mode, after), name);
    CutSaveEndsWell(View(sys.files, name), was, update, mode, after);
    RestoredIsRecovered(View(Exec(sys, SaveCut(name, update, mode, after)).files, name));
    AftermathSeen(sys, SaveCut(name, update, mode, after), boots, pid, es, name);
  }

  lemma StaleMirrorBreaksIt(sys: System, name: string, was: Value, update: Value, mode: WriteMode)
    requires name in CATALOGS && PastMigration(sys.files, name) && sys.up
    requires Full(Read(sys.files, Path(Primary, name))) && Full(Read(sys.files, Path(Mirror, name)))
    requires mode == KeepRecords ==> HasRecords(update)
    requires Read(sys.files, Path(Mirror, name)).value !in Outcomes(was, update)
    ensures !AllOrNothing(sys, name, was, update, mode)
  {
    StaleMirrorComesBack(sys, name, update, mode);
    assert CutBoots([]) && NoSaves([], name);
  }

  lemma FreshMirrorKeepsIt(sys: System, name: string, was: Value, update: Value, mode: WriteMode)
    requires name in CATALOGS && PastMigration(sys.files, name) && sys.up
    requires Read(sys.files, Path(Primary, name)) == Some(was) && HasRecords(was)
    requires var mirror := Read(sys.files, Path(Mirror, name)); Full(mirror) ==> mirror.value in Outcomes(was, update)
    ensures AllOrNothing(sys, name, was, update, mode)
  {
    forall after: nat, boots: seq<Event>, pid: string, es: seq<Event> | CutBoots(boots) && NoSaves(es, name)
      ensures Loaded(Aftermath(sys, SaveCut(name, update, mode, after), boots, pid, es).files, name) in Outcomes(was, update)
    {
      CutSaveIsAllOrNothing(sys, name, was, update, mode, after, boots, pid, es);
    }
  }

  /** In terms of what a caller can look up before the save: the mirror has no records, or
      holds one of the outcomes. */
  lemma SaveIsAllOrNothing(sys: System, name: string, was: Value, update: Value, mode: WriteMode)
    requires name in CATALOGS && PastMigration(sys.files, name) && sys.up
    requires Read(sys.files, Path(Primary, name)) == Some(was) && HasRecords(was)
    requires !Refused(sys.files, name, update, mode)
    ensures AllOrNothing(sys, name, was, update, mode) <==>
            var mirror := Read(sys.files, Path(Mirror, name));
            Full(mirror) ==> mirror.value in Outcomes(was, update)
  {
    var mirror := Read(sys.files, Path(Mirror, name));
    if Full(mirror) && mirror.value !in Outcomes(was, update) {
      StaleMirrorBreaksIt(sys, name, was, update, mode);
    } else {
      FreshMirrorKeepsIt(sys, name, was, update, mode);
    }
  }

  /** An explicit delete that is cut off leaves the old document, its secret-free form or the
      empty one for good; the mirror is the one that a finished save leaves. */
  lemma DeleteIsAllOrNothing(sys: System, name: string, was: Value, empty: Value)
    requires name in CATALOGS && PastMigration(sys.files, name) && sys.up
    requires Read(sys.files, Path(Primary, name)) == Some(was) && HasRecords(was) && !HasRecords(empty)
    requires Read(sys.files, Path(Mirror, name)) == Some(Strip(was))
    ensures AllOrNothing(sys, name, was, empty, AllowEmpty)
    ensures forall es | NoSaves(es, name) ::
              Loaded(Run(sys, [Save(name, empty, AllowEmpty)] + es).files, name) == empty
  {
    SaveIsAllOrNothing(sys, name, was, empty, AllowEmpty);
    forall es | NoSaves(es, name)
      ensures Loaded(Run(sys, [Save(name, empty, AllowEmpty)] + es).files, name) == empty
    {
      AcceptedSaveIsFinal(sys, name, empty, AllowEmpty, es);
    }
  }

  /** A save that is cut off, then a start-up. */
  function CrashAndBoot(sys: System, crash: Event, pid: string): System { Exec(Exec(sys, crash), Boot(pid)) }

  lemma CrashAndBootSeen(sys: System, name: string, value: Value, mode: WriteMode, after: nat, pid: string)
    requires name in CATALOGS && PastMigration(sys.files, name) && sys.up
    ensures var end := CrashAndBoot(sys, SaveCut(name, value, mode, after), pid);
            && View(end.files, name) == Restored(CutView(View(sys.files, name), SaveViews(View(sys.files, name), value, mode), after))
            && end.up && PastMigration(end.files, name)
  {
    ExecSeen(sys, SaveCut(name, value, mode, after), name);
    ExecSeen(Exec(sys, SaveCut(name, value, mode, after)), Boot(pid), name);
  }

  lemma CutBeforeRename(sys: System, name: string, value: Value, mode: WriteMode, pid: string)
    requires name in CATALOGS && PastMigration(sys.files, name) && sys.up
    requires Full(Read(sys.files, Path(Primary, name))) && (mode == KeepRecords ==> HasRecords(value))
    requires Full(Read(sys.files, Path(Mirror, name)))
    ensures var end := CrashAndBoot(sys, SaveCut(name, value, mode, 5), pid);
            Loaded(end.files, name) == Read(sys.files, Path(Mirror, name)).value
  {
    var c := View(sys.files, name);
    CrashAndBootSeen(sys, name, value, mode, 5, pid);
    SaveUnderWay(c, value, mode);
    MissingPrimaryTakesMirror(CutView(c, SaveViews(c, value, mode), 5));
  }

  lemma CutBeforeMirror(sys: System, name: string, value: Value, pid: string)
    requires name in CATALOGS && PastMigration(sys.files, name) && sys.up
    requires Full(Read(sys.files, Path(Primary, name))) && HasRecords(value)
    ensures var end := CrashAndBoot(sys, SaveCut(name, value, KeepRecords, 6), pid);
            && Read(end.files, Path(Primary, name)) == Some(value)
            && Read(end.files, Path(Mirror, name)) == Read(sys.files, Path(Mirror, name))
            && end.up && PastMigration(end.files, name)
  {
    CrashAndBootSeen(sys, name, value, KeepRecords, 6, pid);
    SaveUnderWay(View(sys.files, name), value, KeepRecords);
  }

  /** How a mirror goes stale, and what that costs. A crash between the two writes of a save
      leaves `b` in the primary and `a` in the mirror, and the start-up shows `b`; a crash in
      the next save, before its rename, then brings back `a` although `b` was last seen. */
  lemma TwoCrashesRollBack(sys: System, name: string, a: Value, b: Value, c: Value, mode: WriteMode, pid: string)
    requires name in CATALOGS && PastMigration(sys.files, name) && sys.up
    requires Read(sys.files, Path(Primary, name)) == Some(a) && HasRecords(a) && HasRecords(b)
    requires Read(sys.files, Path(Mirror, name)) == Some(Strip(a))
    requires mode == KeepRecords ==> HasRecords(c)
    ensures var shown := CrashAndBoot(sys, SaveCut(name, b, KeepRecords, 6), pid);
            && Loaded(shown.files, name) == b
            && Loaded(CrashAndBoot(shown, SaveCut(name, c, mode, 5), pid).files, name) == Strip(a)
  {
    StripKeepsRecordCount(a);
    CutBeforeMirror(sys, name, b, pid);
    CutBeforeRename(CrashAndBoot(sys, SaveCut(name, b, KeepRecords, 6), pid), name, c, mode, pid);
  }
}
