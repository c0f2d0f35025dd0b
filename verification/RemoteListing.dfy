/** The directory listing that `find -printf` sends as NUL-terminated fields, seven to an
    entry, and the parser that reads it back. */
module RemoteListing {
  import opened Wrappers
  import opened Strings

  const NUL := '\0'

  datatype DirEntry = DirEntry(
    name: string,
    isDir: bool,
    sizeBytes: Option<nat>,
    modifiedMs: Option<int>,
    permissions: Option<string>,
    owner: Option<string>,
    group: Option<string>)

  /** What find knows of an entry. Modification times are printed as decimal seconds. */
  datatype Found = Found(isDir: bool, permissions: string, owner: string, group: string, size: nat, time: string, name: string)

  /** Reading a time as milliseconds is left to the caller: none for text that is no number. */
  type Clock = string -> Option<int>

  // ---- Numbers ----

  const U64_LIMIT: nat := 0x1_0000_0000_0000_0000

  function DigitChar(d: nat): char
    requires d < 10
  {
    ('0' as int + d) as char
  }

  function Decimal(n: nat): string {
    if n < 10 then [DigitChar(n)] else Decimal(n / 10) + [DigitChar(n % 10)]
  }

  predicate IsDigit(c: char) { '0' <= c <= '9' }

  /** The value of a string of digits. */
  function DigitsValue(s: string): Option<nat> {
    if s == "" then Some(0)
    else if !IsDigit(s[|s| - 1]) then None
    else
      match DigitsValue(s[..|s| - 1])
      case Some(n) => Some(10 * n + (s[|s| - 1] as int - '0' as int))
      case None => None
  }

  /** `str::parse::<u64>`: an optional plus, then digits, below two to the 64. */
  function ParseU64(s: string): Option<nat> {
    var digits := if "+" <= s then s[1..] else s;
    if digits == "" then None
    else
      match DigitsValue(digits)
      case Some(n) => if n < U64_LIMIT then Some(n) else None
      case None => None
  }

  lemma {:induction false} DecimalHasItsValue(n: nat)
    ensures DigitsValue(Decimal(n)) == Some(n)
    ensures Decimal(n) != "" && IsDigit(Decimal(n)[0]) && NUL !in Decimal(n)
  {
    if n >= 10 {
      DecimalHasItsValue(n / 10);
      var s := Decimal(n);
      assert s[..|s| - 1] == Decimal(n / 10);
    } else {
      assert [DigitChar(n)][..0] == "";
    }
  }

  /** Text that is not digits all through is no number. */
  lemma {:induction false} OnlyDigitsHaveAValue(s: string)
    ensures DigitsValue(s).Some? <==> forall i | 0 <= i < |s| :: '0' <= s[i] <= '9'
    decreases |s|
  {
    if s != "" {
      OnlyDigitsHaveAValue(s[..|s| - 1]);
      assert forall i | 0 <= i < |s| - 1 :: s[..|s| - 1][i] == s[i];
    }
  }

  lemma DecimalParses(n: nat)
    ensures ParseU64(Decimal(n)) == if n < U64_LIMIT then Some(n) else None
  {
    DecimalHasItsValue(n);
  }

  // ---- Printing ----

  function Fields(f: Found): seq<string> {
    [if f.isDir then "d" else "f", f.permissions, f.owner, f.group, if f.isDir then "" else Decimal(f.size), f.time, f.name]
  }

  /** Every field with a NUL behind it. */
  function Terminated(fields: seq<string>): string {
    if fields == [] then "" else fields[0] + [NUL] + Terminated(fields[1..])
  }

  function PrintAll(found: seq<Found>): string {
    if found == [] then "" else Terminated(Fields(found[0])) + PrintAll(found[1..])
  }

  // ---- Parsing ----

  function NonEmpty(s: string): Option<string> { if s == "" then None else Some(s) }

  predicate Listed(name: string) { name != "" && name != "." && name != ".." }

  function ParseRecord(clock: Clock, record: seq<string>): Option<DirEntry>
    requires |record| == 7
  {
    var isDir := record[0] == "d";
    if !Listed(record[6]) then None
    else Some(DirEntry(record[6], isDir, if isDir then None else ParseU64(record[4]), clock(record[5]),
                       NonEmpty(record[1]), NonEmpty(record[2]), NonEmpty(record[3])))
  }

  /** `chunks_exact(7)` and `filter_map`: fields left over at the end are dropped. */
  function ParseFields(clock: Clock, fields: seq<string>): seq<DirEntry> {
    if |fields| < 7 then []
    else
      match ParseRecord(clock, fields[..7])
      case Some(e) => [e] + ParseFields(clock, fields[7..])
      case None => ParseFields(clock, fields[7..])
  }

  function ParseMetadataListing(clock: Clock, stdout: string): seq<DirEntry> {
    ParseFields(clock, Split(stdout, NUL))
  }

  // ---- Round trip ----

  predicate NulFree(f: Found) {
    NUL !in f.permissions && NUL !in f.owner && NUL !in f.group && NUL !in f.time && NUL !in f.name
  }

  /** The entry for what was found: all of it, but for sizes of directories and sizes that do
      not fit. */
  function EntryFor(clock: Clock, f: Found): DirEntry {
    DirEntry(f.name, f.isDir, if f.isDir || f.size >= U64_LIMIT then None else Some(f.size), clock(f.time),
             NonEmpty(f.permissions), NonEmpty(f.owner), NonEmpty(f.group))
  }

  function EntriesFor(clock: Clock, found: seq<Found>): seq<DirEntry> {
    if found == [] then []
    else if Listed(found[0].name) then [EntryFor(clock, found[0])] + EntriesFor(clock, found[1..])
    else EntriesFor(clock, found[1..])
  }

  lemma {:induction false} TerminatedSplits(fields: seq<string>, rest: string)
    requires forall field | field in fields :: NUL !in field
    ensures Split(Terminated(fields) + rest, NUL) == fields + Split(rest, NUL)
  {
    if fields == [] {
      assert Terminated(fields) + rest == rest && [] + Split(rest, NUL) == Split(rest, NUL);
    } else {
      var tail := Terminated(fields[1..]) + rest;
      assert Terminated(fields) + rest == fields[0] + [NUL] + tail;
      SplitFirst(fields[0], tail, NUL);
      TerminatedSplits(fields[1..], rest);
      InFront(fields, Split(rest, NUL));
    }
  }

  lemma InFront<T>(a: seq<T>, b: seq<T>)
    requires a != []
    ensures [a[0]] + (a[1..] + b) == a + b
  {
  }

  lemma RecordParses(clock: Clock, f: Found)
    requires NulFree(f)
    ensures |Fields(f)| == 7 && forall field | field in Fields(f) :: NUL !in field
    ensures ParseRecord(clock, Fields(f)) == if Listed(f.name) then Some(EntryFor(clock, f)) else None
  {
    DecimalHasItsValue(f.size);
    DecimalParses(f.size);
  }

  /** Whatever find prints is parsed back entry by entry, with everything that names may hold
      except NUL kept as it is: tabs and newlines too. */
  lemma {:induction false} PrintedListingParsesBack(clock: Clock, found: seq<Found>)
    requires forall f | f in found :: NulFree(f)
    ensures ParseMetadataListing(clock, PrintAll(found)) == EntriesFor(clock, found)
  {
    if found != [] {
      var f, rest := found[0], PrintAll(found[1..]);
      PrintedListingParsesBack(clock, found[1..]);
      RecordParses(clock, f);
      TerminatedSplits(Fields(f), rest);
      var all := Fields(f) + Split(rest, NUL);
      assert all[..7] == Fields(f) && all[7..] == Split(rest, NUL);
    }
  }

  /** The names that a directory can hold besides itself and its parent: hidden ones too. */
  predicate Holdable(name: string) { name != "" && name != "." && name != ".." }

  /** When all names are such names, no entry is lost, added or moved. */
  lemma {:induction false} EntriesPointwise(clock: Clock, found: seq<Found>, i: nat)
    requires i < |found| && forall f | f in found :: Holdable(f.name)
    ensures |EntriesFor(clock, found)| == |found| && EntriesFor(clock, found)[i] == EntryFor(clock, found[i])
  {
    assert found[0] in found;
    if |found| > 1 { EntriesPointwise(clock, found[1..], if i > 0 then i - 1 else 0); }
  }

  /** Each entry that is parsed has what was found, field by field; a field that was printed
      empty is missing, and so is the size of a directory or one that does not fit. */
  lemma ParsedEntry(clock: Clock, found: seq<Found>, i: nat)
    requires i < |found| && forall f | f in found :: NulFree(f) && Holdable(f.name)
    ensures var entries, f := ParseMetadataListing(clock, PrintAll(found)), found[i];
            && |entries| == |found|
            && entries[i].name == f.name && entries[i].isDir == f.isDir && entries[i].modifiedMs == clock(f.time)
            && entries[i].sizeBytes == (if f.isDir || f.size >= 0x1_0000_0000_0000_0000 then None else Some(f.size))
            && entries[i].permissions == (if f.permissions == "" then None else Some(f.permissions))
            && entries[i].owner == (if f.owner == "" then None else Some(f.owner))
            && entries[i].group == (if f.group == "" then None else Some(f.group))
  {
    PrintedListingParsesBack(clock, found);
    EntriesPointwise(clock, found, i);
  }

  /** An entry that is printed by itself is listed exactly when its name is such a name. */
  lemma OnlyHoldableNames(clock: Clock, f: Found)
    requires NulFree(f)
    ensures |ParseMetadataListing(clock, PrintAll([f]))| == if Holdable(f.name) then 1 else 0
  {
    PrintedListingParsesBack(clock, [f]);
    assert [f][1..] == [];
  }
}
