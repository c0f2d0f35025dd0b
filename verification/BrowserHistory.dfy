/** The browsing history: a move-to-front list with a cap, against the visits it stands for. */
module BrowserHistory {
  import opened Wrappers
  import Json
  import Durable

  const HISTORY_CAP := 500

  datatype Entry = Entry(url: string, title: string, profile: string, visitedAt: int) {
    function Key(): (string, string) { (url, profile) }
  }

  function Without(entries: seq<Entry>, key: (string, string)): seq<Entry> {
    if entries == [] then []
    else if entries[0].Key() == key then Without(entries[1..], key)
    else [entries[0]] + Without(entries[1..], key)
  }

  /** The entries that a clear of `profile`, or of everything, leaves. */
  function Spared(entries: seq<Entry>, profile: Option<string>): seq<Entry> {
    if entries == [] then []
    else if Hits(profile, entries[0].profile) then Spared(entries[1..], profile)
    else [entries[0]] + Spared(entries[1..], profile)
  }

  predicate Hits(cleared: Option<string>, profile: string) { cleared.None? || cleared.value == profile }

  function Capped(entries: seq<Entry>): seq<Entry> {
    if |entries| > HISTORY_CAP then entries[..HISTORY_CAP] else entries
  }

  function Recorded(entries: seq<Entry>, e: Entry): seq<Entry> { Capped([e] + Without(entries, e.Key())) }

  function NewEntry(profile: string, url: string, title: string, now: int): Entry {
    Entry(url, if title == "" then url else title, profile, now)
  }

  class History {
    var entries: seq<Entry>

    constructor ()
      ensures entries == []
    {
      entries := [];
    }

    method Record(profile: string, url: string, title: string, now: int)
      modifies this
      ensures entries == Recorded(old(entries), NewEntry(profile, url, title, now))
      ensures 1 <= |entries| <= 500 && entries[0] == Entry(url, if title == "" then url else title, profile, now)
      ensures forall e :: e in entries[1..] ==> e in old(entries) && (e.url != url || e.profile != profile)
      ensures |old(entries)| < 500 ==>
                forall e :: e in old(entries) && (e.url != url || e.profile != profile) ==> e in entries[1..]
    {
      RecordedMembers(entries, Entry(url, if title == "" then url else title, profile, now));
      entries := Without(entries, (url, profile));
      entries := [Entry(url, if title == "" then url else title, profile, now)] + entries;
      if |entries| > HISTORY_CAP {
        entries := entries[..HISTORY_CAP];
      }
    }

    /** Also reports the write mode: only a clear that leaves nothing may empty the catalog. */
    method Clear(profile: Option<string>) returns (mode: Durable.WriteMode)
      modifies this
      ensures entries == Spared(old(entries), profile)
      ensures mode == if entries == [] then Durable.AllowEmpty else Durable.KeepRecords
      ensures profile.None? ==> entries == []
      ensures profile.Some? ==> forall e :: e in entries <==> e in old(entries) && e.profile != profile.value
    {
      SparedMembers(entries, profile);
      if profile.Some? {
        entries := Spared(entries, profile);
        mode := if entries == [] then Durable.AllowEmpty else Durable.KeepRecords;
      } else {
        AllHit(entries);
        entries := [];
        mode := Durable.AllowEmpty;
      }
    }
  }

  /** What a visit keeps: the other (url, profile) pairs, all of them while there is room. */
  lemma RecordedMembers(entries: seq<Entry>, e: Entry)
    ensures var now := Recorded(entries, e);
            && 1 <= |now| <= 500 && now[0] == e
            && (forall o :: o in now[1..] ==> o in entries && (o.url != e.url || o.profile != e.profile))
            && (|entries| < 500 ==> forall o :: o in entries && (o.url != e.url || o.profile != e.profile) ==> o in now[1..])
  {
    var rest := Without(entries, e.Key());
    WithoutMembers(entries, e.Key());
    WithoutShrinks(entries, e.Key());
    var now := Recorded(entries, e);
    assert now[1..] == rest[..|now| - 1];
    forall o | o in now[1..] ensures o in rest {
      var i :| 0 <= i < |now[1..]| && now[1..][i] == o;
      assert rest[i] == o;
    }
    if |entries| < 500 { assert now[1..] == rest; }
  }

  lemma WithoutShrinks(entries: seq<Entry>, key: (string, string))
    ensures |Without(entries, key)| <= |entries|
  {
  }

  lemma AllHit(entries: seq<Entry>)
    ensures Spared(entries, None) == []
  {
  }

  // ---- The history that a trace of visits and clears stands for ----

  datatype Action = Visit(entry: Entry) | Clear(profile: Option<string>)

  predicate Clears(actions: seq<Action>, j: nat, profile: string)
    requires j < |actions|
  {
    actions[j].Clear? && Hits(actions[j].profile, profile)
  }

  /** No later action clears the visit's profile. */
  predicate Survives(actions: seq<Action>, i: nat)
    requires i < |actions| && actions[i].Visit?
  {
    forall j: nat | i < j < |actions| :: !Clears(actions, j, actions[i].entry.profile)
  }

  /** The survivor among one action, if it is one. */
  function OneSurvivor(actions: seq<Action>, i: nat): seq<Entry>
    requires i < |actions|
  {
    if actions[i].Visit? && Survives(actions, i) then [actions[i].entry] else []
  }

  /** The surviving visits among the first `n` actions, newest first. */
  function Surviving(actions: seq<Action>, n: nat): seq<Entry>
    requires n <= |actions|
    decreases n
  {
    if n == 0 then []
    else OneSurvivor(actions, n - 1) + Surviving(actions, n - 1)
  }

  /** Each key at its first occurrence only. */
  function Distinct(entries: seq<Entry>, seen: set<(string, string)>): seq<Entry> {
    if entries == [] then []
    else if entries[0].Key() in seen then Distinct(entries[1..], seen)
    else [entries[0]] + Distinct(entries[1..], seen + {entries[0].Key()})
  }

  /** The uncapped history: distinct surviving visits, read newest first. */
  function Ideal(actions: seq<Action>): seq<Entry> { Distinct(Surviving(actions, |actions|), {}) }

  function Apply(entries: seq<Entry>, a: Action): seq<Entry> {
    match a
    case Visit(e) => Recorded(entries, e)
    case Clear(profile) => Spared(entries, profile)
  }

  function Replay(actions: seq<Action>): seq<Entry> {
    if actions == [] then [] else Apply(Replay(actions[..|actions| - 1]), actions[|actions| - 1])
  }

  // ---- How the ideal history changes with one more action ----

  lemma {:induction false} WithoutSplits(a: seq<Entry>, b: seq<Entry>, key: (string, string))
    ensures Without(a + b, key) == Without(a, key) + Without(b, key)
  {
    if a == [] { assert a + b == b; }
    else {
      assert (a + b)[1..] == a[1..] + b;
      WithoutSplits(a[1..], b, key);
    }
  }

  lemma {:induction false} SparedSplits(a: seq<Entry>, b: seq<Entry>, profile: Option<string>)
    ensures Spared(a + b, profile) == Spared(a, profile) + Spared(b, profile)
  {
    if a == [] { assert a + b == b; }
    else {
      assert (a + b)[1..] == a[1..] + b;
      SparedSplits(a[1..], b, profile);
    }
  }

  lemma {:induction false} SeenIsRemoved(entries: seq<Entry>, seen: set<(string, string)>, key: (string, string))
    ensures Distinct(entries, seen + {key}) == Without(Distinct(entries, seen), key)
  {
    if entries != [] {
      var k := entries[0].Key();
      if k in seen {
        SeenIsRemoved(entries[1..], seen, key);
      } else if k == key {
        SeenIsRemoved(entries[1..], seen + {k}, key);
        assert seen + {k} + {key} == seen + {key};
      } else {
        SeenIsRemoved(entries[1..], seen + {k}, key);
        assert seen + {k} + {key} == seen + {key} + {k};
      }
    }
  }

  lemma {:induction false} SparedWithout(entries: seq<Entry>, key: (string, string), profile: Option<string>)
    requires Hits(profile, key.1)
    ensures Spared(Without(entries, key), profile) == Spared(entries, profile)
  {
    if entries != [] {
      SparedWithout(entries[1..], key, profile);
      SparedSplits(if entries[0].Key() == key then [] else [entries[0]], Without(entries[1..], key), profile);
    }
  }

  lemma {:induction false} DistinctSpared(entries: seq<Entry>, seen: set<(string, string)>, profile: Option<string>)
    ensures Distinct(Spared(entries, profile), seen) == Spared(Distinct(entries, seen), profile)
  {
    if entries != [] {
      var e, rest := entries[0], entries[1..];
      if e.Key() !in seen {
        SparedSplits([e], Distinct(rest, seen + {e.Key()}), profile);
        assert [e][1..] == [];
      }
      if Hits(profile, e.profile) {
        DistinctSpared(rest, seen, profile);
        assert Spared(entries, profile) == Spared(rest, profile);
        if e.Key() !in seen {
          SeenIsRemoved(rest, seen, e.Key());
          SparedWithout(Distinct(rest, seen), e.Key(), profile);
        }
      } else {
        DistinctSpared(rest, seen, profile);
        DistinctSpared(rest, seen + {e.Key()}, profile);
      }
    }
  }

  lemma SurvivesAfter(actions: seq<Action>, a: Action, i: nat)
    requires i < |actions| && actions[i].Visit?
    ensures Survives(actions + [a], i) <==>
            Survives(actions, i) && (a.Clear? ==> !Hits(a.profile, actions[i].entry.profile))
  {
    var longer, profile := actions + [a], actions[i].entry.profile;
    assert longer[i] == actions[i];
    assert Clears(longer, |actions|, profile) <==> a.Clear? && Hits(a.profile, profile);
    forall j: nat | i < j < |actions| ensures Clears(longer, j, profile) <==> Clears(actions, j, profile) {
      assert longer[j] == actions[j];
    }
  }

  /** What one more action leaves of some survivors. */
  function Left(entries: seq<Entry>, a: Action): seq<Entry> {
    match a case Visit(_) => entries case Clear(profile) => Spared(entries, profile)
  }

  lemma OneSurvivorAfter(actions: seq<Action>, a: Action, i: nat)
    requires i < |actions|
    ensures OneSurvivor(actions + [a], i) == Left(OneSurvivor(actions, i), a)
  {
    assert (actions + [a])[i] == actions[i];
    if actions[i].Visit? {
      SurvivesAfter(actions, a, i);
      if a.Clear? { SparedOne(actions[i].entry, a.profile); }
    }
  }

  lemma SparedOne(e: Entry, profile: Option<string>)
    ensures Spared([e], profile) == if Hits(profile, e.profile) then [] else [e]
  {
    assert [e][1..] == [];
  }

  lemma LeftSplits(x: seq<Entry>, y: seq<Entry>, a: Action)
    ensures Left(x + y, a) == Left(x, a) + Left(y, a)
  {
    if a.Clear? { SparedSplits(x, y, a.profile); }
  }

  lemma Combined(x: seq<Entry>, y: seq<Entry>, left: seq<Entry>, right: seq<Entry>, a: Action)
    requires left == Left(x, a) && right == Left(y, a)
    ensures left + right == Left(x + y, a)
  {
    LeftSplits(x, y, a);
  }

  lemma {:induction false} SurvivingAfter(actions: seq<Action>, a: Action, n: nat)
    requires n <= |actions|
    ensures Surviving(actions + [a], n) == Left(Surviving(actions, n), a)
    decreases n
  {
    if n > 0 {
      SurvivingAfter(actions, a, n - 1);
      OneSurvivorAfter(actions, a, n - 1);
      Combined(OneSurvivor(actions, n - 1), Surviving(actions, n - 1),
               OneSurvivor(actions + [a], n - 1), Surviving(actions + [a], n - 1), a);
    }
  }

  lemma IdealAfterVisit(actions: seq<Action>, e: Entry)
    ensures Ideal(actions + [Visit(e)]) == [e] + Without(Ideal(actions), e.Key())
  {
    SurvivingAfter(actions, Visit(e), |actions|);
    SeenIsRemoved(Surviving(actions, |actions|), {}, e.Key());
    var all := Surviving(actions + [Visit(e)], |actions| + 1);
    assert Survives(actions + [Visit(e)], |actions|);
    assert all == [e] + Surviving(actions, |actions|);
    assert all[1..] == Surviving(actions, |actions|);
    assert {} + {e.Key()} == {e.Key()};
  }

  lemma IdealAfterClear(actions: seq<Action>, profile: Option<string>)
    ensures Ideal(actions + [Clear(profile)]) == Spared(Ideal(actions), profile)
  {
    SurvivingAfter(actions, Clear(profile), |actions|);
    var longer := actions + [Clear(profile)];
    assert longer[|actions|] == Clear(profile);
    assert Surviving(longer, |longer|) == Surviving(longer, |actions|);
    DistinctSpared(Surviving(actions, |actions|), {}, profile);
  }

  // ---- The capped list against the ideal one ----

  predicate DistinctKeys(entries: seq<Entry>) {
    forall i, j | 0 <= i < j < |entries| :: entries[i].Key() != entries[j].Key()
  }

  lemma {:induction false} DistinctIsDistinct(entries: seq<Entry>, seen: set<(string, string)>)
    ensures DistinctKeys(Distinct(entries, seen))
    ensures forall e | e in Distinct(entries, seen) :: e.Key() !in seen
  {
    if entries != [] {
      if entries[0].Key() in seen { DistinctIsDistinct(entries[1..], seen); }
      else { DistinctIsDistinct(entries[1..], seen + {entries[0].Key()}); }
    }
  }

  lemma {:induction false} AtMostOneGoes(entries: seq<Entry>, key: (string, string))
    requires DistinctKeys(entries)
    ensures |entries| - 1 <= |Without(entries, key)| <= |entries|
    ensures (forall e | e in entries :: e.Key() != key) ==> Without(entries, key) == entries
  {
    if entries != [] {
      AtMostOneGoes(entries[1..], key);
      if entries[0].Key() == key {
        assert forall e | e in entries[1..] :: e.Key() != key;
      }
    }
  }

  /** Cutting off before or after a visit makes no difference, when keys are distinct. */
  lemma CapBeforeVisit(all: seq<Entry>, e: Entry)
    requires DistinctKeys(all)
    ensures Capped([e] + Without(Capped(all), e.Key())) == Capped([e] + Without(all, e.Key()))
  {
    if |all| > HISTORY_CAP {
      var kept, cut := all[..HISTORY_CAP], all[HISTORY_CAP..];
      assert all == kept + cut;
      WithoutSplits(kept, cut, e.Key());
      AtMostOneGoes(kept, e.Key());
      assert [e] + Without(all, e.Key()) == ([e] + Without(kept, e.Key())) + Without(cut, e.Key());
    }
  }

  lemma SnocTrace(actions: seq<Action>)
    requires actions != []
    ensures actions == actions[..|actions| - 1] + [actions[|actions| - 1]]
  {
  }

  /** After visits only, they all survive, the newest first. */
  lemma {:induction false} AllSurvive(actions: seq<Action>, n: nat)
    requires n <= |actions| && forall a | a in actions :: a.Visit?
    ensures |Surviving(actions, n)| == n
    ensures forall k | 0 <= k < n :: Surviving(actions, n)[k] == actions[n - 1 - k].entry
    decreases n
  {
    if n > 0 {
      AllSurvive(actions, n - 1);
      assert actions[n - 1] in actions && forall j | 0 <= j < |actions| :: actions[j] in actions;
      assert Surviving(actions, n) == [actions[n - 1].entry] + Surviving(actions, n - 1);
    }
  }

  /** After any visits, the history is the first 500 distinct (url, profile) keys of the trace
      read newest first, each with the title and time of its latest visit. */
  lemma {:induction false} HistoryIsNewestDistinct(actions: seq<Action>)
    requires forall a | a in actions :: a.Visit?
    ensures Replay(actions) == Capped(Ideal(actions))
    ensures |Surviving(actions, |actions|)| == |actions|
    ensures forall k | 0 <= k < |actions| :: Surviving(actions, |actions|)[k] == actions[|actions| - 1 - k].entry
    decreases |actions|
  {
    AllSurvive(actions, |actions|);
    if actions != [] {
      var before, last := actions[..|actions| - 1], actions[|actions| - 1];
      SnocTrace(actions);
      assert last in actions && forall a | a in before :: a in actions;
      HistoryIsNewestDistinct(before);
      VisitKeepsCapped(before, last.entry);
    }
  }

  lemma VisitKeepsCapped(before: seq<Action>, e: Entry)
    requires Replay(before) == Capped(Ideal(before))
    ensures Recorded(Replay(before), e) == Capped(Ideal(before + [Visit(e)]))
  {
    DistinctIsDistinct(Surviving(before, |before|), {});
    CapBeforeVisit(Ideal(before), e);
    IdealAfterVisit(before, e);
  }

  lemma PrefixOnVisit(before: seq<Action>, e: Entry)
    requires Replay(before) <= Ideal(before)
    ensures var now, ideal := Recorded(Replay(before), e), Ideal(before + [Visit(e)]);
            && now <= ideal && |now| <= HISTORY_CAP
            && (Replay(before) == Ideal(before) && |ideal| <= HISTORY_CAP ==> now == ideal)
  {
    var have, ideal := Replay(before), Ideal(before);
    var more := ideal[|have|..];
    assert ideal == have + more;
    IdealAfterVisit(before, e);
    WithoutSplits(have, more, e.Key());
    PrefixIsCapped([e] + Without(have, e.Key()), [e] + (Without(have, e.Key()) + Without(more, e.Key())));
  }

  lemma PrefixOnClear(before: seq<Action>, profile: Option<string>)
    requires Replay(before) <= Ideal(before) && |Replay(before)| <= HISTORY_CAP
    ensures var now, ideal := Spared(Replay(before), profile), Ideal(before + [Clear(profile)]);
            && now <= ideal && |now| <= HISTORY_CAP
            && (Replay(before) == Ideal(before) ==> now == ideal)
  {
    var have, ideal := Replay(before), Ideal(before);
    var more := ideal[|have|..];
    assert ideal == have + more;
    IdealAfterClear(before, profile);
    SparedSplits(have, more, profile);
    SparedShrinks(have, profile);
  }

  /** The ideal history has never been over the cap. */
  predicate NeverOver(actions: seq<Action>) { forall n | 0 <= n <= |actions| :: |Ideal(actions[..n])| <= HISTORY_CAP }

  lemma NeverOverBefore(actions: seq<Action>)
    requires actions != [] && NeverOver(actions)
    ensures NeverOver(actions[..|actions| - 1]) && |Ideal(actions)| <= HISTORY_CAP
  {
    var before := actions[..|actions| - 1];
    assert actions[..|actions|] == actions;
    forall n | 0 <= n <= |before| ensures |Ideal(before[..n])| <= HISTORY_CAP {
      assert before[..n] == actions[..n];
    }
  }

  /** With clears mixed in, the history is a prefix of the ideal one over the visits that were
      not cleared, and all of it as long as the ideal one has never been over the cap. */
  lemma {:induction false} HistoryIsPrefix(actions: seq<Action>)
    ensures Replay(actions) <= Ideal(actions) && |Replay(actions)| <= HISTORY_CAP
    ensures NeverOver(actions) ==> Replay(actions) == Ideal(actions)
    decreases |actions|
  {
    if actions != [] {
      var before, last := actions[..|actions| - 1], actions[|actions| - 1];
      SnocTrace(actions);
      HistoryIsPrefix(before);
      match last {
        case Visit(e) => PrefixOnVisit(before, e);
        case Clear(profile) => PrefixOnClear(before, profile);
      }
      if NeverOver(actions) { NeverOverBefore(actions); }
    }
  }

  lemma SparedShrinks(entries: seq<Entry>, profile: Option<string>)
    ensures |Spared(entries, profile)| <= |entries|
  {
  }

  // ---- What is still there once the cap has been exceeded ----

  lemma {:induction false} WithoutMembers(entries: seq<Entry>, key: (string, string))
    ensures forall e :: e in Without(entries, key) <==> e in entries && e.Key() != key
  {
    if entries != [] {
      WithoutMembers(entries[1..], key);
      assert entries == [entries[0]] + entries[1..];
    }
  }

  lemma {:induction false} SparedMembers(entries: seq<Entry>, profile: Option<string>)
    ensures forall e :: e in Spared(entries, profile) <==> e in entries && !Hits(profile, e.profile)
  {
    if entries != [] {
      SparedMembers(entries[1..], profile);
      assert entries == [entries[0]] + entries[1..];
    }
  }

  lemma PrefixIsCapped(a: seq<Entry>, b: seq<Entry>)
    requires a <= b
    ensures Capped(a) <= Capped(b) && (forall e | e in Capped(a) :: e in a && e in Capped(b))
    ensures Capped(a) == a || Capped(a) == Capped(b)
  {
    assert forall e | e in a[..|Capped(a)|] :: e in a;
    assert |a| <= HISTORY_CAP ==> a == b[..|a|] && a <= Capped(b);
    if |a| > HISTORY_CAP { assert a[..HISTORY_CAP] == b[..HISTORY_CAP]; }
    assert Capped(a) == Capped(b)[..|Capped(a)|];
    forall e | e in Capped(a) ensures e in Capped(b) {
      var i :| 0 <= i < |Capped(a)| && Capped(a)[i] == e;
      assert Capped(b)[i] == e;
    }
  }

  lemma StaysOnVisit(have: seq<Entry>, ideal: seq<Entry>, v: Entry, e: Entry)
    requires have <= ideal && e.Key() != v.Key()
    ensures e in Recorded(have, v) <==> e in have && e in Capped([v] + Without(ideal, v.Key()))
  {
    var a, b := [v] + Without(have, v.Key()), [v] + Without(ideal, v.Key());
    assert ideal == have + ideal[|have|..];
    WithoutSplits(have, ideal[|have|..], v.Key());
    assert b == a + Without(ideal[|have|..], v.Key());
    WithoutMembers(have, v.Key());
    PrefixIsCapped(a, b);
  }

  lemma StaysOnClear(have: seq<Entry>, ideal: seq<Entry>, profile: Option<string>, e: Entry)
    requires have <= ideal && |have| <= HISTORY_CAP
    ensures e in Spared(have, profile) <==> e in have && e in Capped(Spared(ideal, profile))
  {
    assert ideal == have + ideal[|have|..];
    SparedSplits(have, ideal[|have|..], profile);
    SparedMembers(have, profile);
    SparedMembers(ideal, profile);
    SparedShrinks(have, profile);
    PrefixIsCapped(Spared(have, profile), Spared(ideal, profile));
    PrefixIsCapped(Spared(ideal, profile), Spared(ideal, profile));
  }

  /** At every moment after the first `i` actions, the entry is among the first 500. */
  predicate NeverPushedOut(actions: seq<Action>, i: nat, e: Entry)
    decreases |actions|
  {
    |actions| <= i || (e in Capped(Ideal(actions)) && NeverPushedOut(actions[..|actions| - 1], i, e))
  }

  lemma EntryStays(before: seq<Action>, last: Action, e: Entry)
    requires last.Visit? ==> last.entry.Key() != e.Key()
    ensures e in Apply(Replay(before), last) <==> e in Replay(before) && e in Capped(Ideal(before + [last]))
  {
    HistoryIsPrefix(before);
    match last {
      case Visit(v) =>
        IdealAfterVisit(before, v);
        StaysOnVisit(Replay(before), Ideal(before), v, e);
      case Clear(profile) =>
        IdealAfterClear(before, profile);
        StaysOnClear(Replay(before), Ideal(before), profile, e);
    }
  }

  lemma NewEntryIsThere(before: seq<Action>, e: Entry)
    ensures e in Recorded(Replay(before), e) && e in Capped(Ideal(before + [Visit(e)]))
  {
    IdealAfterVisit(before, e);
    HeadIsCapped(e, Without(Ideal(before), e.Key()));
    HeadIsCapped(e, Without(Replay(before), e.Key()));
  }

  lemma HeadIsCapped(e: Entry, rest: seq<Entry>)
    ensures e in Capped([e] + rest)
  {
    assert Capped([e] + rest)[0] == e;
  }

  /** The latest visit of a key is in the history exactly when, ever since, it has been among
      the first 500 of the ideal one: no clear took it, and there were never 500 newer ones. */
  lemma {:induction false} EntryIsThere(actions: seq<Action>, i: nat)
    requires i < |actions| && actions[i].Visit?
    requires forall j | i < j < |actions| && actions[j].Visit? :: actions[j].entry.Key() != actions[i].entry.Key()
    ensures actions[i].entry in Replay(actions) <==> NeverPushedOut(actions, i, actions[i].entry)
    decreases |actions|
  {
    var e, before, last := actions[i].entry, actions[..|actions| - 1], actions[|actions| - 1];
    SnocTrace(actions);
    if i == |actions| - 1 {
      NewEntryIsThere(before, e);
    } else {
      EntryIsThere(before, i);
      EntryStays(before, last, e);
    }
  }

  // ---- The catalog behind it ----

  /** The saved form of an entry; its time of visit, a number, is left out here. */
  function EntryDocument(e: Entry): Json.Value {
    Json.Object(map["url" := Json.Str(e.url), "title" := Json.Str(e.title), "profile_key" := Json.Str(e.profile)])
  }

  function HistoryDocument(entries: seq<Entry>): Json.Value {
    Json.Object(map["entries" := Json.Array(seq(|entries|, i requires 0 <= i < |entries| => EntryDocument(entries[i])))])
  }

  /** One record for each entry; so no write of the history is ever refused. */
  lemma HistoryWritesGoThrough(fs: Durable.Files, name: string, entries: seq<Entry>, mode: Durable.WriteMode)
    requires mode == if entries == [] then Durable.AllowEmpty else Durable.KeepRecords
    ensures Json.RecordCount(HistoryDocument(entries)) == |entries|
    ensures !Durable.Refused(fs, name, HistoryDocument(entries), mode)
  {
    Json.EntriesOnly(HistoryDocument(entries).members["entries"]);
  }
}
