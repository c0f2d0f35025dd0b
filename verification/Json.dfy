/** JSON documents as the catalog code sees them: which records a document holds,
    and how secrets are stripped from it before it is mirrored. */
module Json {
  import opened Wrappers

  /** A parsed document. Object members have unique names, as in the parser the code uses. */
  datatype Value =
    | Null
    | Bool(flag: bool)
    | Number(text: string)
    | Str(text: string)
    | Array(items: seq<Value>)
    | Object(members: map<string, Value>)

  const EMPTY_OBJECT := Object(map[])

  const SECRET_KEYS: set<string> := {"password", "api_key", "passphrase", "cursor_api_key"}

  const TOP_LEVEL_LISTS: seq<string> := ["connections", "devices", "entries", "bookmarks"]

  const ENTITY_LAYOUT_SCOPES: seq<string> := ["hosts", "k8s", "db"]

  /** One step from a document to a part of it. */
  datatype Step = Key(name: string) | Index(at: nat)

  /** The part of `v` that the steps lead to, if there is one. */
  function Dig(v: Value, steps: seq<Step>): Option<Value> {
    if steps == [] then Some(v)
    else match (steps[0], v)
      case (Key(k), Object(m)) => if k in m then Dig(m[k], steps[1..]) else None
      case (Index(i), Array(items)) => if i < |items| then Dig(items[i], steps[1..]) else None
      case _ => None
  }

  /** The length of the list at `keys`, 0 when there is no list there. */
  function ListLength(v: Value, keys: seq<Step>): nat {
    match Dig(v, keys)
    case Some(Array(items)) => |items|
    case _ => 0
  }

  function SumOfLists(v: Value, places: seq<seq<Step>>): nat
    decreases |places|, v
  {
    if places == [] then 0 else ListLength(v, places[0]) + SumOfLists(v, places[1..])
  }

  /** Every place at which an object document keeps records. */
  const RECORD_LISTS: seq<seq<Step>> :=
    [[Key("connections")], [Key("devices")], [Key("entries")], [Key("bookmarks")],
     [Key("catalog"), Key("connections")],
     [Key("settings"), Key("profiles")],
     [Key("hosts"), Key("groups")], [Key("k8s"), Key("groups")], [Key("db"), Key("groups")]]

  /** How many records a document holds. */
  function RecordCount(v: Value): nat {
    if v.Array? then |v.items| else SumOfLists(v, RECORD_LISTS)
  }

  predicate HasRecords(v: Value) { RecordCount(v) > 0 }

  /** A document without its secrets, as it is written to the mirror. */
  function Strip(v: Value): Value {
    match v
    case Array(items) => Array(seq(|items|, i requires 0 <= i < |items| => Strip(items[i])))
    case Object(m) => Object(map k | k in m && k !in SECRET_KEYS :: Strip(m[k]))
    case _ => v
  }

  /** No object at any depth has a secret member. */
  predicate SecretFree(v: Value) {
    match v
    case Array(items) => forall i | 0 <= i < |items| :: SecretFree(items[i])
    case Object(m) => forall k | k in m :: k !in SECRET_KEYS && SecretFree(m[k])
    case _ => true
  }

  predicate PassesSecret(steps: seq<Step>) {
    exists i | 0 <= i < |steps| :: steps[i].Key? && steps[i].name in SECRET_KEYS
  }

  // ---- Stripping removes the secrets and nothing else ----

  /** What is found in a stripped document: nothing behind a secret key, and otherwise the
      stripped form of what was there. Scalars are their own stripped form. */
  lemma {:induction false} StripKeepsEverythingElse(v: Value, steps: seq<Step>)
    ensures Dig(Strip(v), steps) ==
            if PassesSecret(steps) then None
            else match Dig(v, steps) case Some(part) => Some(Strip(part)) case None => None
    decreases |steps|
  {
    if steps != [] {
      var rest := steps[1..];
      assert PassesSecret(steps) <==> (steps[0].Key? && steps[0].name in SECRET_KEYS) || PassesSecret(rest) by {
        if PassesSecret(steps) && !(steps[0].Key? && steps[0].name in SECRET_KEYS) {
          var i :| 0 <= i < |steps| && steps[i].Key? && steps[i].name in SECRET_KEYS;
          assert rest[i - 1] == steps[i];
        }
        if PassesSecret(rest) {
          var i :| 0 <= i < |rest| && rest[i].Key? && rest[i].name in SECRET_KEYS;
          assert steps[i + 1] == rest[i];
        }
      }
      match (steps[0], v) {
        case (Key(k), Object(m)) => if k in m { StripKeepsEverythingElse(m[k], rest); }
        case (Index(i), Array(items)) => if i < |items| { StripKeepsEverythingElse(items[i], rest); }
        case _ =>
      }
    }
  }

  lemma {:induction false} StripLeavesNoSecret(v: Value)
    ensures SecretFree(Strip(v))
  {
    match v {
      case Array(items) => forall i | 0 <= i < |items| { StripLeavesNoSecret(items[i]); }
      case Object(m) => forall k | k in m { StripLeavesNoSecret(m[k]); }
      case _ =>
    }
  }

  /** Stripping changes exactly the documents that hold a secret; so it is idempotent. */
  lemma {:induction false} StripFixesExactlySecretFree(v: Value)
    ensures Strip(v) == v <==> SecretFree(v)
    ensures Strip(Strip(v)) == Strip(v)
  {
    StripLeavesNoSecret(v);
    if Strip(v) != v {
      SecretFreeIsFixed(Strip(v));
    }
    if SecretFree(v) {
      SecretFreeIsFixed(v);
    }
  }

  lemma {:induction false} SecretFreeIsFixed(v: Value)
    requires SecretFree(v)
    ensures Strip(v) == v
  {
    match v {
      case Array(items) => forall i | 0 <= i < |items| { SecretFreeIsFixed(items[i]); }
      case Object(m) =>
        forall k | k in m { SecretFreeIsFixed(m[k]); }
        assert Strip(v).members == m;
      case _ =>
    }
  }

  /** The mirror copy of a document holds as many records as the document. */
  lemma StripKeepsRecordCount(v: Value)
    ensures RecordCount(Strip(v)) == RecordCount(v)
  {
    if !v.Array? {
      SumSurvivesStrip(v, RECORD_LISTS);
    }
  }

  lemma {:induction false} SumSurvivesStrip(v: Value, places: seq<seq<Step>>)
    requires forall place | place in places :: !PassesSecret(place)
    ensures SumOfLists(Strip(v), places) == SumOfLists(v, places)
  {
    if places != [] {
      StripKeepsEverythingElse(v, places[0]);
      SumSurvivesStrip(v, places[1..]);
    }
  }

  // ---- Counting as the code does it ----

  function Get(v: Value, key: string): Option<Value> {
    if v.Object? && key in v.members then Some(v.members[key]) else None
  }

  function ItemsOf(v: Option<Value>): nat {
    if v.Some? && v.value.Array? then |v.value.items| else 0
  }

  function ItemsBelow(v: Option<Value>, key: string): nat {
    if v.Some? then ItemsOf(Get(v.value, key)) else 0
  }

  lemma ListsByKey(v: Value, outer: string, inner: string)
    ensures ListLength(v, [Key(outer)]) == ItemsOf(Get(v, outer))
    ensures ListLength(v, [Key(outer), Key(inner)]) == ItemsBelow(Get(v, outer), inner)
  {
    OneKey(v, outer);
    if Get(v, outer).Some? {
      OneKey(Get(v, outer).value, inner);
    }
    assert [Key(outer), Key(inner)][1..] == [Key(inner)];
  }

  lemma OneKey(v: Value, key: string)
    ensures Dig(v, [Key(key)]) == Get(v, key)
  {
    assert [Key(key)][1..] == [];
  }

  lemma SumSplits(v: Value, a: seq<seq<Step>>, b: seq<seq<Step>>)
    ensures SumOfLists(v, a + b) == SumOfLists(v, a) + SumOfLists(v, b)
  {
    if a == [] {
      assert a + b == b;
    } else {
      assert (a + b)[1..] == a[1..] + b;
    }
  }

  /** The nine lists by name: what an object document holds is their lengths together. */
  lemma NineLists(v: Value)
    requires !v.Array?
    ensures RecordCount(v) ==
            ItemsOf(Get(v, "connections")) + ItemsOf(Get(v, "devices")) + ItemsOf(Get(v, "entries")) + ItemsOf(Get(v, "bookmarks"))
            + ItemsBelow(Get(v, "catalog"), "connections") + ItemsBelow(Get(v, "settings"), "profiles")
            + ItemsBelow(Get(v, "hosts"), "groups") + ItemsBelow(Get(v, "k8s"), "groups") + ItemsBelow(Get(v, "db"), "groups")
  {
    FourLists(v);
    FiveLists(v);
    SumSplits(v, RECORD_LISTS[..4], RECORD_LISTS[4..]);
    assert RECORD_LISTS[..4] + RECORD_LISTS[4..] == RECORD_LISTS;
  }

  lemma OneList(v: Value, place: seq<Step>, places: seq<seq<Step>>)
    ensures SumOfLists(v, [place] + places) == ListLength(v, place) + SumOfLists(v, places)
  {
    assert ([place] + places)[1..] == places;
  }

  lemma FourLists(v: Value)
    ensures SumOfLists(v, RECORD_LISTS[..4]) ==
            ItemsOf(Get(v, "connections")) + ItemsOf(Get(v, "devices")) + ItemsOf(Get(v, "entries")) + ItemsOf(Get(v, "bookmarks"))
  {
    var a, b, c, d: seq<Step> := [Key("connections")], [Key("devices")], [Key("entries")], [Key("bookmarks")];
    assert RECORD_LISTS[..4] == [a] + ([b] + ([c] + ([d] + [])));
    OneList(v, d, []);
    OneList(v, c, [d] + []);
    OneList(v, b, [c] + ([d] + []));
    OneList(v, a, [b] + ([c] + ([d] + [])));
    ListsByKey(v, "connections", "");
    ListsByKey(v, "devices", "");
    ListsByKey(v, "entries", "");
    ListsByKey(v, "bookmarks", "");
  }

  lemma FiveLists(v: Value)
    ensures SumOfLists(v, RECORD_LISTS[4..]) ==
            ItemsBelow(Get(v, "catalog"), "connections") + ItemsBelow(Get(v, "settings"), "profiles")
            + ItemsBelow(Get(v, "hosts"), "groups") + ItemsBelow(Get(v, "k8s"), "groups") + ItemsBelow(Get(v, "db"), "groups")
  {
    var a, b, c, d, e: seq<Step> := [Key("catalog"), Key("connections")], [Key("settings"), Key("profiles")],
                                    [Key("hosts"), Key("groups")], [Key("k8s"), Key("groups")], [Key("db"), Key("groups")];
    assert RECORD_LISTS[4..] == [a] + ([b] + ([c] + ([d] + ([e] + []))));
    OneList(v, e, []);
    OneList(v, d, [e] + []);
    OneList(v, c, [d] + ([e] + []));
    OneList(v, b, [c] + ([d] + ([e] + [])));
    OneList(v, a, [b] + ([c] + ([d] + ([e] + []))));
    ListsByKey(v, "catalog", "connections");
    ListsByKey(v, "settings", "profiles");
    ListsByKey(v, "hosts", "groups");
    ListsByKey(v, "k8s", "groups");
    ListsByKey(v, "db", "groups");
  }

  /** The four credentials by name: wherever they are in a document, they are gone from its
      stripped form, and a member of any other name next to them is not. */
  lemma CredentialsAreGone(v: Value, steps: seq<Step>, key: string)
    ensures key in {"password", "api_key", "passphrase", "cursor_api_key"} ==> Dig(Strip(v), steps + [Key(key)]).None?
    ensures key !in {"password", "api_key", "passphrase", "cursor_api_key"} && !PassesSecret(steps) ==>
              (Dig(Strip(v), steps + [Key(key)]).Some? <==> Dig(v, steps + [Key(key)]).Some?)
  {
    var longer := steps + [Key(key)];
    StripKeepsEverythingElse(v, longer);
    assert longer[|steps|] == Key(key);
    assert forall i | 0 <= i < |steps| :: longer[i] == steps[i];
  }

  method CountRecords(value: Value) returns (count: nat)
    ensures count == RecordCount(value)
  {
    if value.Array? {
      return |value.items|;
    }
    if !value.Object? {
      NotAnObject(value);
      return 0;
    }
    count := CountTopLevel(value);
    count := CountBelow(value, "catalog", "connections", 4, count);
    count := CountBelow(value, "settings", "profiles", 5, count);
    count := CountGroups(value, count);
    assert RECORD_LISTS[..9] == RECORD_LISTS;
  }

  lemma NotAnObject(v: Value)
    requires !v.Object? && !v.Array?
    ensures RecordCount(v) == 0
  {
    assert forall place | place in RECORD_LISTS :: ListLength(v, place) == 0;
    NoListsNoSum(v, RECORD_LISTS);
  }

  method CountBelow(value: Value, outer: string, inner: string, ghost place: nat, before: nat) returns (count: nat)
    requires place < |RECORD_LISTS| && RECORD_LISTS[place] == [Key(outer), Key(inner)]
    requires before == SumOfLists(value, RECORD_LISTS[..place])
    ensures count == SumOfLists(value, RECORD_LISTS[..place + 1])
  {
    var found := ItemsBelow(Get(value, outer), inner);
    ListsByKey(value, outer, inner);
    OneMore(value, place, found);
    count := before + found;
  }

  method CountTopLevel(value: Value) returns (count: nat)
    ensures count == SumOfLists(value, RECORD_LISTS[..4])
  {
    count := 0;
    for i := 0 to |TOP_LEVEL_LISTS|
      invariant count == SumOfLists(value, RECORD_LISTS[..i])
    {
      var found := ItemsOf(Get(value, TOP_LEVEL_LISTS[i]));
      ListsByKey(value, TOP_LEVEL_LISTS[i], "");
      OneMore(value, i, found);
      count := count + found;
    }
  }

  method CountGroups(value: Value, before: nat) returns (count: nat)
    requires before == SumOfLists(value, RECORD_LISTS[..6])
    ensures count == SumOfLists(value, RECORD_LISTS[..9])
  {
    count := before;
    for i := 0 to |ENTITY_LAYOUT_SCOPES|
      invariant count == SumOfLists(value, RECORD_LISTS[..6 + i])
    {
      count := CountBelow(value, ENTITY_LAYOUT_SCOPES[i], "groups", 6 + i, count);
    }
  }

  lemma OneMore(v: Value, i: nat, found: nat)
    requires i < |RECORD_LISTS| && found == ListLength(v, RECORD_LISTS[i])
    ensures SumOfLists(v, RECORD_LISTS[..i + 1]) == SumOfLists(v, RECORD_LISTS[..i]) + found
  {
    assert RECORD_LISTS[..i + 1] == RECORD_LISTS[..i] + [RECORD_LISTS[i]];
    SumSplits(v, RECORD_LISTS[..i], [RECORD_LISTS[i]]);
  }

  lemma NoListsNoSum(v: Value, places: seq<seq<Step>>)
    requires forall place | place in places :: ListLength(v, place) == 0
    ensures SumOfLists(v, places) == 0
  {
  }

  /** A document with nothing but an "entries" list has one record for each entry. */
  lemma EntriesOnly(list: Value)
    requires list.Array?
    ensures RecordCount(Object(map["entries" := list])) == |list.items|
  {
    var doc := Object(map["entries" := list]);
    var first, last := RECORD_LISTS[..2], RECORD_LISTS[3..];
    assert RECORD_LISTS == first + [[Key("entries")]] + last;
    SumSplits(doc, first + [[Key("entries")]], last);
    SumSplits(doc, first, [[Key("entries")]]);
    OneKey(doc, "entries");
    NoListsNoSum(doc, first);
    NoListsNoSum(doc, last);
  }
}
