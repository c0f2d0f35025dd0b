/** The hash-chained audit log: what its writer appends, what its verifier accepts, and what
    an accepted log pins down.

    The hash is a parameter. Nothing is assumed of it beyond the form of its outputs: where
    injectivity would be needed, the conclusion is "or two rows of these logs collide". */
module AuditChain {
  import opened Wrappers

  type Hash = string -> string

  /** A row of the audit table, without its row id. Rows of an older schema have two empty hashes. */
  datatype Row = Row(ts: string, event: string, payload: string, prevHash: string, entryHash: string)

  const GENESIS := "genesis"

  /** Outputs are 64 lower-case hexadecimal digits, as SHA-256 (FIPS 180-4) prints. */
  ghost predicate HexDigest(h: Hash) {
    forall s :: |h(s)| == 64 && forall c | c in h(s) :: '0' <= c <= '9' || 'a' <= c <= 'f'
  }

  function MaterialOf(prev: string, ts: string, event: string, payload: string): string {
    prev + "|" + ts + "|" + event + "|" + payload
  }

  function Material(row: Row): string { MaterialOf(row.prevHash, row.ts, row.event, row.payload) }

  /** The fields that are hashed have no separator in front of the payload. */
  predicate Separable(row: Row) { '|' !in row.ts && '|' !in row.event }

  // ---- The chain, independently of the code ----

  predicate Hashed(row: Row) { row.entryHash != "" }

  function HashedRows(rows: seq<Row>): seq<Row> {
    if rows == [] then []
    else if Hashed(rows[|rows| - 1]) then HashedRows(rows[..|rows| - 1]) + [rows[|rows| - 1]]
    else HashedRows(rows[..|rows| - 1])
  }

  /** The hash that the next row has to name. */
  function Head(chain: seq<Row>): string {
    if chain == [] then GENESIS else chain[|chain| - 1].entryHash
  }

  predicate Linked(h: Hash, head: string, row: Row) {
    row.prevHash == head && row.entryHash == h(Material(row))
  }

  /** Each row names its predecessor's hash, back to "genesis", and carries its own. */
  predicate IsChain(h: Hash, chain: seq<Row>) {
    chain == [] ||
    var before := chain[..|chain| - 1];
    IsChain(h, before) && Linked(h, Head(before), chain[|chain| - 1])
  }

  function ChainHead(rows: seq<Row>): string { Head(HashedRows(rows)) }

  // ---- The verifier ----

  datatype Verdict =
    | Verified(entries: nat)
    | WrongPrevious(brokenAt: nat, expected: string, got: string)
    | HashMismatch(brokenAt: nat)

  lemma HashedRowsSnoc(rows: seq<Row>, i: nat)
    requires i < |rows|
    ensures HashedRows(rows[..i + 1]) == if Hashed(rows[i]) then HashedRows(rows[..i]) + [rows[i]] else HashedRows(rows[..i])
  {
    assert rows[..i + 1][..i] == rows[..i];
  }

  lemma ChainSnoc(h: Hash, chain: seq<Row>, row: Row)
    ensures IsChain(h, chain + [row]) <==> IsChain(h, chain) && Linked(h, Head(chain), row)
  {
    assert (chain + [row])[..|chain|] == chain;
  }

  lemma {:induction false} BrokenStaysBroken(h: Hash, chain: seq<Row>, more: seq<Row>)
    requires !IsChain(h, chain)
    ensures !IsChain(h, chain + more)
    decreases |more|
  {
    if more == [] {
      assert chain + more == chain;
    } else {
      var fewer := more[..|more| - 1];
      BrokenStaysBroken(h, chain, fewer);
      assert chain + more == chain + fewer + [more[|more| - 1]];
      ChainSnoc(h, chain + fewer, more[|more| - 1]);
    }
  }

  lemma {:induction false} HashedRowsSplit(a: seq<Row>, b: seq<Row>)
    ensures HashedRows(a + b) == HashedRows(a) + HashedRows(b)
    decreases |b|
  {
    if b == [] {
      assert a + b == a;
    } else {
      HashedRowsSplit(a, b[..|b| - 1]);
      assert (a + b)[..|a + b| - 1] == a + b[..|b| - 1];
    }
  }

  /** A row that does not link on breaks the log for good. */
  lemma BrokenAt(h: Hash, rows: seq<Row>, i: nat)
    requires i < |rows| && !IsChain(h, HashedRows(rows[..i + 1]))
    ensures !IsChain(h, HashedRows(rows))
  {
    assert rows == rows[..i + 1] + rows[i + 1..];
    HashedRowsSplit(rows[..i + 1], rows[i + 1..]);
    BrokenStaysBroken(h, HashedRows(rows[..i + 1]), HashedRows(rows[i + 1..]));
  }

  lemma RowBreaks(h: Hash, rows: seq<Row>, i: nat)
    requires i < |rows| && Hashed(rows[i]) && !Linked(h, ChainHead(rows[..i]), rows[i])
    ensures !IsChain(h, HashedRows(rows[..i + 1])) && !IsChain(h, HashedRows(rows))
  {
    HashedRowsSnoc(rows, i);
    ChainSnoc(h, HashedRows(rows[..i]), rows[i]);
    BrokenAt(h, rows, i);
  }

  lemma RowLinks(h: Hash, rows: seq<Row>, i: nat)
    requires i < |rows| && IsChain(h, HashedRows(rows[..i]))
    requires Hashed(rows[i]) ==> Linked(h, ChainHead(rows[..i]), rows[i])
    ensures IsChain(h, HashedRows(rows[..i + 1]))
    ensures ChainHead(rows[..i + 1]) == if Hashed(rows[i]) then rows[i].entryHash else ChainHead(rows[..i])
  {
    HashedRowsSnoc(rows, i);
    ChainSnoc(h, HashedRows(rows[..i]), rows[i]);
  }

  /** The rows are a chain up to there and no longer with that row. */
  predicate FirstBreak(h: Hash, rows: seq<Row>, i: nat) {
    i < |rows| && IsChain(h, HashedRows(rows[..i])) && !IsChain(h, HashedRows(rows[..i + 1]))
  }

  /** In what way a row does not link on to `head`. */
  predicate Explains(h: Hash, head: string, row: Row, verdict: Verdict) {
    match verdict
    case Verified(_) => false
    case WrongPrevious(_, expected, got) => expected == head && got == row.prevHash != expected
    case HashMismatch(_) => row.prevHash == head && row.entryHash != h(Material(row))
  }

  predicate PointsAtBreak(h: Hash, rows: seq<Row>, verdict: Verdict) {
    && !verdict.Verified? && FirstBreak(h, rows, verdict.brokenAt)
    && Explains(h, ChainHead(rows[..verdict.brokenAt]), rows[verdict.brokenAt], verdict)
  }

  /** The verdict on one row, if it breaks the chain. */
  method CheckRow(h: Hash, i: nat, row: Row, expectedPrev: string) returns (broken: Option<Verdict>)
    ensures broken.None? <==> (Hashed(row) ==> Linked(h, expectedPrev, row))
    ensures broken.Some? ==> !broken.value.Verified? && broken.value.brokenAt == i && Explains(h, expectedPrev, row, broken.value)
  {
    if row.prevHash != expectedPrev && row.entryHash != "" {
      if row.prevHash != "" || row.entryHash != "" {
        return Some(WrongPrevious(i, expectedPrev, row.prevHash));
      }
    }
    if row.entryHash != "" {
      var computed := h(Material(row));
      if computed != row.entryHash {
        return Some(HashMismatch(i));
      }
    }
    broken := None;
  }

  /** Accepts exactly the logs whose hashed rows form a chain, whatever unhashed rows lie
      between them; otherwise points at the first row that breaks it. */
  method VerifyChain(h: Hash, rows: seq<Row>) returns (verdict: Verdict)
    ensures verdict.Verified? <==> IsChain(h, HashedRows(rows))
    ensures verdict.Verified? ==> verdict.entries == |rows|
    ensures !verdict.Verified? ==> PointsAtBreak(h, rows, verdict)
  {
    var expectedPrev := GENESIS;
    for i := 0 to |rows|
      invariant IsChain(h, HashedRows(rows[..i])) && expectedPrev == ChainHead(rows[..i])
    {
      var broken := CheckRow(h, i, rows[i], expectedPrev);
      if broken.Some? {
        RowBreaks(h, rows, i);
        return broken.value;
      }
      RowLinks(h, rows, i);
      expectedPrev := if rows[i].entryHash != "" then rows[i].entryHash else expectedPrev;
    }
    assert rows[..|rows|] == rows;
    verdict := Verified(|rows|);
  }

  // ---- What an accepted log pins down ----

  /** Cutting at the first separator is unambiguous. */
  lemma {:induction false} FirstCutIsUnique(a: string, restA: string, b: string, restB: string)
    requires '|' !in a && '|' !in b && a + "|" + restA == b + "|" + restB
    ensures a == b && restA == restB
  {
    var s, t := a + "|" + restA, b + "|" + restB;
    assert s[|a|] == '|' && t[|b|] == '|';
    assert forall i | 0 <= i < |a| :: s[i] == a[i] && s[i] != '|';
    assert forall i | 0 <= i < |b| :: t[i] == b[i] && t[i] != '|';
    assert a == s[..|a|] == t[..|b|] == b;
    assert restA == s[|a| + 1..] == t[|b| + 1..] == restB;
  }

  lemma MaterialIsUnique(a: Row, b: Row)
    requires Separable(a) && Separable(b) && '|' !in a.prevHash && '|' !in b.prevHash
    requires Material(a) == Material(b)
    ensures a.prevHash == b.prevHash && a.ts == b.ts && a.event == b.event && a.payload == b.payload
  {
    var a1, b1 := a.event + "|" + a.payload, b.event + "|" + b.payload;
    var a0, b0 := a.ts + "|" + a1, b.ts + "|" + b1;
    assert Material(a) == a.prevHash + "|" + a0;
    assert Material(b) == b.prevHash + "|" + b0;
    FirstCutIsUnique(a.prevHash, a0, b.prevHash, b0);
    FirstCutIsUnique(a.ts, a1, b.ts, b1);
    FirstCutIsUnique(a.event, a.payload, b.event, b.payload);
  }

  lemma HeadHasNoBar(h: Hash, chain: seq<Row>)
    requires HexDigest(h) && IsChain(h, chain)
    ensures '|' !in Head(chain)
    ensures chain != [] ==> Head(chain) != GENESIS
  {
    if chain != [] {
      var digest := h(Material(chain[|chain| - 1]));
      assert Head(chain) == digest && |digest| == 64;
      assert forall c | c in digest :: '0' <= c <= '9' || 'a' <= c <= 'f';
    }
  }

  /** Two rows, one of each log, whose different material has the same hash. */
  ghost predicate CollisionIn(h: Hash, a: seq<Row>, b: seq<Row>) {
    exists x, y :: x in a && y in b && Collides(h, x, y)
  }

  predicate Collides(h: Hash, x: Row, y: Row) { Material(x) != Material(y) && h(Material(x)) == h(Material(y)) }

  /** The last rows of two chains with the same head are the same, unless they collide; and
      then the chains before them have the same head. */
  lemma LastRowsAgree(h: Hash, a: seq<Row>, b: seq<Row>)
    requires HexDigest(h) && a != [] && b != [] && IsChain(h, a) && IsChain(h, b) && Head(a) == Head(b)
    requires Separable(a[|a| - 1]) && Separable(b[|b| - 1]) && !Collides(h, a[|a| - 1], b[|b| - 1])
    ensures a[|a| - 1] == b[|b| - 1] && Head(a[..|a| - 1]) == Head(b[..|b| - 1])
  {
    HeadHasNoBar(h, a[..|a| - 1]);
    HeadHasNoBar(h, b[..|b| - 1]);
    SameDigestSameRow(h, a[|a| - 1], b[|b| - 1]);
  }

  lemma RowsAhead(rows: seq<Row>)
    requires rows != []
    ensures rows == rows[..|rows| - 1] + [rows[|rows| - 1]] && rows[|rows| - 1] in rows
    ensures forall row | row in rows[..|rows| - 1] :: row in rows
  {
  }

  /** Two chains with the same head are the same chain, unless two of their own rows collide. */
  lemma {:induction false} HeadBindsChain(h: Hash, a: seq<Row>, b: seq<Row>)
    requires HexDigest(h) && IsChain(h, a) && IsChain(h, b)
    requires forall row | row in a :: Separable(row)
    requires forall row | row in b :: Separable(row)
    requires Head(a) == Head(b)
    ensures a == b || CollisionIn(h, a, b)
    decreases |a|
  {
    if a == [] || b == [] {
      HeadHasNoBar(h, a);
      HeadHasNoBar(h, b);
    } else {
      var restA, restB := a[..|a| - 1], b[..|b| - 1];
      RowsAhead(a);
      RowsAhead(b);
      if !Collides(h, a[|a| - 1], b[|b| - 1]) {
        LastRowsAgree(h, a, b);
        HeadBindsChain(h, restA, restB);
        if CollisionIn(h, restA, restB) { CollisionGrows(h, restA, restB, [a[|a| - 1]], [b[|b| - 1]]); }
      }
    }
  }

  lemma CollisionGrows(h: Hash, a: seq<Row>, b: seq<Row>, moreA: seq<Row>, moreB: seq<Row>)
    requires CollisionIn(h, a, b)
    ensures CollisionIn(h, a + moreA, b + moreB)
  {
    var x, y :| x in a && y in b && Collides(h, x, y);
    assert x in a + moreA && y in b + moreB;
  }

  lemma SameDigestSameRow(h: Hash, x: Row, y: Row)
    requires h(Material(x)) == h(Material(y)) && !Collides(h, x, y) && x.entryHash == y.entryHash
    requires Separable(x) && Separable(y) && '|' !in x.prevHash && '|' !in y.prevHash
    ensures x == y
  {
    assert Material(x) == Material(y);
    MaterialIsUnique(x, y);
  }

  /** Two accepted logs with the same last hash have the same hashed rows in the same order,
      each with the same time, event and payload, unless a hashed row of the one collides with
      one of the other. */
  lemma AcceptedLogIsBound(h: Hash, a: seq<Row>, b: seq<Row>)
    requires HexDigest(h)
    requires IsChain(h, HashedRows(a)) && IsChain(h, HashedRows(b))
    requires forall row | row in a + b :: Separable(row)
    requires ChainHead(a) == ChainHead(b)
    ensures HashedRows(a) == HashedRows(b) || CollisionIn(h, HashedRows(a), HashedRows(b))
  {
    HashedRowsAreRows(a);
    HashedRowsAreRows(b);
    HeadBindsChain(h, HashedRows(a), HashedRows(b));
  }

  lemma {:induction false} HashedRowsAreRows(rows: seq<Row>)
    ensures forall row | row in HashedRows(rows) :: row in rows && Hashed(row)
    ensures forall row | row in rows && Hashed(row) :: row in HashedRows(rows)
  {
    if rows != [] {
      HashedRowsAreRows(rows[..|rows| - 1]);
      assert rows == rows[..|rows| - 1] + [rows[|rows| - 1]];
    }
  }

  // ---- The writer ----

  /** What the writer takes for the hash to continue from: it looks at the last row only. */
  function LastHash(rows: seq<Row>): string {
    if rows != [] && rows[|rows| - 1].entryHash != "" then rows[|rows| - 1].entryHash else GENESIS
  }

  function NewRow(h: Hash, rows: seq<Row>, ts: string, event: string, payload: string): Row {
    var prev := LastHash(rows);
    Row(ts, event, payload, prev, h(MaterialOf(prev, ts, event, payload)))
  }

  class AuditLog {
    const hash: Hash
    var rows: seq<Row>

    constructor (hash: Hash, rows: seq<Row>)
      ensures this.hash == hash && this.rows == rows
    {
      this.hash, this.rows := hash, rows;
    }

    method Write(ts: string, event: string, payload: string) returns (entryHash: string)
      modifies this
      ensures rows == old(rows) + [NewRow(hash, old(rows), ts, event, payload)]
      ensures entryHash == rows[|rows| - 1].entryHash
      ensures var row := rows[|rows| - 1];
              && row.ts == ts && row.event == event && row.payload == payload
              && row.entryHash == hash(row.prevHash + "|" + ts + "|" + event + "|" + payload)
    {
      var prev := if rows != [] && rows[|rows| - 1].entryHash != "" then rows[|rows| - 1].entryHash else GENESIS;
      entryHash := hash(MaterialOf(prev, ts, event, payload));
      rows := rows + [Row(ts, event, payload, prev, entryHash)];
    }
  }

  lemma HashedRowsOfAppend(rows: seq<Row>, row: Row)
    ensures HashedRows(rows + [row]) == if Hashed(row) then HashedRows(rows) + [row] else HashedRows(rows)
  {
    assert (rows + [row])[..|rows|] == rows;
  }

  predicate EndsHashed(rows: seq<Row>) { rows == [] || HashedRows(rows) == [] || Hashed(rows[|rows| - 1]) }

  /** Looking at the last row only finds the head of the chain exactly under this condition. */
  lemma WriterFindsHead(h: Hash, rows: seq<Row>)
    requires HexDigest(h) && IsChain(h, HashedRows(rows))
    ensures LastHash(rows) == ChainHead(rows) <==> EndsHashed(rows)
  {
    HeadHasNoBar(h, HashedRows(rows));
    if rows != [] {
      var before, last := rows[..|rows| - 1], rows[|rows| - 1];
      assert HashedRows(rows) == if Hashed(last) then HashedRows(before) + [last] else HashedRows(before);
    }
  }

  lemma NewRowIsHashed(h: Hash, rows: seq<Row>, ts: string, event: string, payload: string)
    requires HexDigest(h)
    ensures var row := NewRow(h, rows, ts, event, payload);
            Hashed(row) && row.prevHash == LastHash(rows) && row.entryHash == h(Material(row))
  {
    assert |h(MaterialOf(LastHash(rows), ts, event, payload))| == 64;
  }

  /** A write keeps a log acceptable exactly when the log has no hashed row or does not end in
      an unhashed one: behind an unhashed row the writer starts again from "genesis". */
  lemma WriteKeepsChain(h: Hash, rows: seq<Row>, ts: string, event: string, payload: string)
    requires HexDigest(h) && IsChain(h, HashedRows(rows))
    ensures IsChain(h, HashedRows(rows + [NewRow(h, rows, ts, event, payload)])) <==> EndsHashed(rows)
    ensures EndsHashed(rows + [NewRow(h, rows, ts, event, payload)])
  {
    var row := NewRow(h, rows, ts, event, payload);
    NewRowIsHashed(h, rows, ts, event, payload);
    WriterFindsHead(h, rows);
    HashedRowsOfAppend(rows, row);
    ChainSnoc(h, HashedRows(rows), row);
  }

  datatype Entry = Entry(ts: string, event: string, payload: string)

  function Written(h: Hash, rows: seq<Row>, entries: seq<Entry>): seq<Row>
    decreases |entries|
  {
    if entries == [] then rows
    else Written(h, rows + [NewRow(h, rows, entries[0].ts, entries[0].event, entries[0].payload)], entries[1..])
  }

  /** The rows are what the callers gave, one for each write and in that order, behind what was
      there before. */
  lemma {:induction false} WritesAreRecorded(h: Hash, rows: seq<Row>, entries: seq<Entry>)
    ensures |Written(h, rows, entries)| == |rows| + |entries| && rows <= Written(h, rows, entries)
    ensures forall i | 0 <= i < |entries| ::
              var row := Written(h, rows, entries)[|rows| + i];
              row.ts == entries[i].ts && row.event == entries[i].event && row.payload == entries[i].payload
    decreases |entries|
  {
    if entries != [] {
      var e, rest := entries[0], entries[1..];
      var longer := rows + [NewRow(h, rows, e.ts, e.event, e.payload)];
      WritesAreRecorded(h, longer, rest);
      var end := Written(h, rows, entries);
      assert end == Written(h, longer, rest) && longer <= end && end[|rows|] == longer[|rows|];
      forall i | 0 <= i < |entries|
        ensures var row := end[|rows| + i];
                row.ts == entries[i].ts && row.event == entries[i].event && row.payload == entries[i].payload
      {
        if i > 0 { assert entries[i] == rest[i - 1] && end[|rows| + i] == end[|longer| + (i - 1)]; }
      }
    }
  }

  /** Every log the writer can make from an old unhashed table is accepted, row for row. */
  lemma {:induction false} WriterIsAccepted(h: Hash, legacy: seq<Row>, entries: seq<Entry>)
    requires HexDigest(h) && forall row | row in legacy :: !Hashed(row)
    ensures IsChain(h, HashedRows(Written(h, legacy, entries)))
    ensures |Written(h, legacy, entries)| == |legacy| + |entries|
  {
    NothingHashed(legacy);
    WritesStayAccepted(h, legacy, entries);
  }

  lemma {:induction false} NothingHashed(rows: seq<Row>)
    requires forall row | row in rows :: !Hashed(row)
    ensures HashedRows(rows) == []
  {
    if rows != [] { NothingHashed(rows[..|rows| - 1]); }
  }

  lemma {:induction false} WritesStayAccepted(h: Hash, rows: seq<Row>, entries: seq<Entry>)
    requires HexDigest(h) && IsChain(h, HashedRows(rows))
    requires EndsHashed(rows)
    ensures IsChain(h, HashedRows(Written(h, rows, entries)))
    ensures |Written(h, rows, entries)| == |rows| + |entries|
    decreases |entries|
  {
    if entries != [] {
      var e := entries[0];
      WriteKeepsChain(h, rows, e.ts, e.event, e.payload);
      WritesStayAccepted(h, rows + [NewRow(h, rows, e.ts, e.event, e.payload)], entries[1..]);
    }
  }
}
