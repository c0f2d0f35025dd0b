/** The working directory that the panels keep track of: how `cd` targets change it, and how
    it is shown. Windows paths are not part of this. */
module UnixPaths {
  import opened Wrappers
  import opened Strings

  // ---- Trimming ----

  function TrimStart(s: string, drop: char -> bool): string {
    if s != "" && drop(s[0]) then TrimStart(s[1..], drop) else s
  }

  function TrimEnd(s: string, drop: char -> bool): string {
    if s != "" && drop(s[|s| - 1]) then TrimEnd(s[..|s| - 1], drop) else s
  }

  function TrimBoth(s: string, drop: char -> bool): string { TrimEnd(TrimStart(s, drop), drop) }

  predicate Slash(c: char) { c == '/' }

  predicate Quote(c: char) { c == '"' }

  /** Unicode White_Space, which `trim` removes. */
  predicate White(c: char) {
    var u := c as int;
    0x9 <= u <= 0xD || u == 0x20 || u == 0x85 || u == 0xA0 || u == 0x1680 || 0x2000 <= u <= 0x200A
    || u == 0x2028 || u == 0x2029 || u == 0x202F || u == 0x205F || u == 0x3000
  }

  /** `target.trim().trim_matches('"')` */
  function Trimmed(target: string): string { TrimBoth(TrimBoth(target, White), Quote) }

  /** `target.trim_start_matches("~/")` */
  function StripTildes(s: string): string { if "~/" <= s then StripTildes(s[2..]) else s }

  predicate All(s: string, drop: char -> bool) { forall i | 0 <= i < |s| :: drop(s[i]) }

  predicate Bare(s: string, drop: char -> bool) { s == "" || (!drop(s[0]) && !drop(s[|s| - 1])) }

  lemma {:induction false} TrimStartIs(s: string, drop: char -> bool)
    ensures exists a: string :: All(a, drop) && s == a + TrimStart(s, drop)
    ensures TrimStart(s, drop) == "" || !drop(TrimStart(s, drop)[0])
  {
    if s != "" && drop(s[0]) {
      TrimStartIs(s[1..], drop);
      var a: string :| All(a, drop) && s[1..] == a + TrimStart(s[1..], drop);
      assert All([s[0]] + a, drop) && s == [s[0]] + a + TrimStart(s, drop);
    } else {
      assert All("", drop) && s == "" + TrimStart(s, drop);
    }
  }

  lemma {:induction false} TrimEndIs(s: string, drop: char -> bool)
    ensures exists b: string :: All(b, drop) && s == TrimEnd(s, drop) + b
    ensures TrimEnd(s, drop) == "" || !drop(TrimEnd(s, drop)[|TrimEnd(s, drop)| - 1])
    ensures TrimEnd(s, drop) != "" ==> TrimEnd(s, drop)[0] == s[0]
    decreases |s|
  {
    if s != "" && drop(s[|s| - 1]) {
      var front := s[..|s| - 1];
      TrimEndIs(front, drop);
      var b: string :| All(b, drop) && front == TrimEnd(front, drop) + b;
      assert All(b + [s[|s| - 1]], drop) && s == TrimEnd(s, drop) + (b + [s[|s| - 1]]);
    } else {
      assert All("", drop) && s == TrimEnd(s, drop) + "";
    }
  }

  /** Trimming leaves the middle: only what is to be dropped goes, from both ends, and all of it. */
  lemma TrimBothIs(s: string, drop: char -> bool)
    ensures exists a: string, b: string :: All(a, drop) && All(b, drop) && s == a + TrimBoth(s, drop) + b
    ensures Bare(TrimBoth(s, drop), drop)
  {
    var inner := TrimStart(s, drop);
    TrimStartIs(s, drop);
    TrimEndIs(inner, drop);
    var a: string :| All(a, drop) && s == a + inner;
    var b: string :| All(b, drop) && inner == TrimEnd(inner, drop) + b;
    assert s == a + TrimBoth(s, drop) + b;
  }

  /** What is looked at of a `cd` target: without the white space around it, and then without
      the quotes around that. */
  lemma TrimmedIs(target: string)
    ensures exists a: string, b: string, inner: string ::
              All(a, White) && All(b, White) && target == a + inner + b && Bare(inner, White)
              && inner == TrimBoth(target, White) && Trimmed(target) == TrimBoth(inner, Quote)
    ensures exists a: string, b: string ::
              All(a, Quote) && All(b, Quote) && TrimBoth(target, White) == a + Trimmed(target) + b
    ensures Bare(Trimmed(target), Quote)
  {
    TrimBothIs(target, White);
    TrimBothIs(TrimBoth(target, White), Quote);
  }

  // ---- The code ----

  /** The loop of `normalize_unix_path`: names are pushed, ".." pops. */
  function StepTo(at: seq<string>, name: string): seq<string> {
    if name == "" || name == "." then at
    else if name == ".." then (if at == [] then [] else at[..|at| - 1])
    else at + [name]
  }

  function Walk(at: seq<string>, names: seq<string>): seq<string>
    decreases |names|
  {
    if names == [] then at else Walk(StepTo(at, names[0]), names[1..])
  }

  function Normalized(path: string): string {
    var parts := Walk([], Split(path, '/'));
    if "/" <= path then "/" + Join(parts, '/') else Join(parts, '/')
  }

  method NormalizeUnixPath(path: string) returns (normal: string)
    ensures normal == Normalized(path)
  {
    var parts: seq<string> := [];
    var names := Split(path, '/');
    for i := 0 to |names|
      invariant Walk([], names) == Walk(parts, names[i..])
    {
      var part := names[i];
      assert names[i..][0] == part && names[i..][1..] == names[i + 1..];
      if part == "" || part == "." {
        continue;
      }
      if part == ".." {
        if parts != [] {
          parts := parts[..|parts| - 1];
        }
        continue;
      }
      parts := parts + [part];
    }
    normal := if "/" <= path then "/" + Join(parts, '/') else Join(parts, '/');
  }

  function JoinUnixPath(base: string, segment: string): string {
    var stem, rest := TrimEnd(base, Slash), TrimBoth(segment, Slash);
    if rest == "" then stem else Normalized(stem + "/" + rest)
  }

  /** The part in front of the last slash, if there is a slash. */
  function BeforeLastSlash(s: string): Option<string> {
    if s == "" then None
    else if s[|s| - 1] == '/' then Some(s[..|s| - 1])
    else BeforeLastSlash(s[..|s| - 1])
  }

  function ParentUnixPath(path: string, home: string): string {
    var trimmed := TrimEnd(path, Slash);
    if trimmed == "" || trimmed == TrimEnd(home, Slash) then home
    else
      match BeforeLastSlash(trimmed)
      case Some(parent) => if parent == "" then "/" else parent
      case None => home
  }

  function CdTarget(cwd: string, home: string, target: string): string {
    var t := Trimmed(target);
    if t == "" || t == "~" then home
    else if "~/" <= t then JoinUnixPath(home, StripTildes(t))
    else if "/" <= t then Normalized(t)
    else if t == ".." then ParentUnixPath(cwd, home)
    else if t == "." then cwd
    else JoinUnixPath(cwd, t)
  }

  function DisplayPath(home: string, absolute: string): string {
    var stem := TrimEnd(home, Slash);
    if absolute == stem then "~"
    else if stem + "/" <= absolute then "~" + absolute[|stem|..]
    else absolute
  }

  /** The `cwd` that `apply_cd_target` updates in place. */
  class Tracker {
    const home: string
    var cwd: string

    constructor (home: string, cwd: string)
      ensures this.home == home && this.cwd == cwd
    {
      this.home, this.cwd := home, cwd;
    }

    method ApplyCdTarget(target: string)
      modifies this
      ensures cwd == CdTarget(old(cwd), home, target)
    {
      var t := Trimmed(target);
      if t == "" || t == "~" {
        cwd := home;
        return;
      }
      if "~/" <= t {
        cwd := JoinUnixPath(home, StripTildes(t));
        return;
      }
      if "/" <= t {
        cwd := NormalizeUnixPath(t);
        return;
      }
      if t == ".." {
        cwd := ParentUnixPath(cwd, home);
        return;
      }
      if t == "." {
        return;
      }
      cwd := JoinUnixPath(cwd, t);
    }
  }

  // ---- Absolute normal paths ----

  predicate Clean(names: seq<string>) {
    forall name | name in names :: name != "" && name != "." && name != ".." && '/' !in name
  }

  function Render(names: seq<string>): string { "/" + Join(names, '/') }

  lemma {:induction false} WalkJoins(at: seq<string>, a: seq<string>, b: seq<string>)
    ensures Walk(at, a + b) == Walk(Walk(at, a), b)
    decreases |a|
  {
    if a == [] {
      assert a + b == b;
    } else {
      assert (a + b)[1..] == a[1..] + b;
      WalkJoins(StepTo(at, a[0]), a[1..], b);
    }
  }

  lemma {:induction false} WalkClean(at: seq<string>, names: seq<string>)
    requires Clean(names)
    ensures Walk(at, names) == at + names
    decreases |names|
  {
    if names != [] {
      assert names[0] in names;
      WalkClean(at + [names[0]], names[1..]);
      assert at + [names[0]] + names[1..] == at + names;
    }
  }

  lemma {:induction false} WalkStaysClean(at: seq<string>, names: seq<string>)
    requires Clean(at) && forall name | name in names :: '/' !in name
    ensures Clean(Walk(at, names))
    decreases |names|
  {
    if names != [] {
      assert names[0] in names;
      WalkStaysClean(StepTo(at, names[0]), names[1..]);
    }
  }

  lemma SplitRender(names: seq<string>)
    requires Clean(names) && names != []
    ensures Split(Render(names), '/') == [""] + names
  {
    SplitJoin(names, '/');
    assert Render(names)[1..] == Join(names, '/');
  }

  /** Splitting a rendered path and walking it gives its names back. */
  lemma WalkRender(names: seq<string>)
    requires Clean(names)
    ensures Walk([], Split(Render(names), '/')) == names
  {
    if names == [] {
      assert Render(names)[1..] == "";
      assert Split("/", '/') == [""] + [""];
    } else {
      SplitRender(names);
      assert ([""] + names)[1..] == names;
      WalkClean([], names);
      assert [] + names == names;
    }
  }

  lemma RenderIsInjective(a: seq<string>, b: seq<string>)
    requires Clean(a) && Clean(b) && Render(a) == Render(b)
    ensures a == b
  {
    WalkRender(a);
    WalkRender(b);
  }

  /** Slashes at the ends of a segment do not matter to a walk. */
  lemma {:induction false} WalkTrimStart(at: seq<string>, s: string)
    ensures Walk(at, Split(TrimStart(s, Slash), '/')) == Walk(at, Split(s, '/'))
  {
    if s != "" && Slash(s[0]) {
      WalkTrimStart(at, s[1..]);
      assert Split(s, '/')[1..] == Split(s[1..], '/');
    }
  }

  lemma {:induction false} WalkTrimEnd(at: seq<string>, s: string)
    ensures Walk(at, Split(TrimEnd(s, Slash), '/')) == Walk(at, Split(s, '/'))
  {
    if s != "" && Slash(s[|s| - 1]) {
      var shorter := s[..|s| - 1];
      WalkTrimEnd(at, shorter);
      assert s == shorter + ['/'] + "";
      SplitConcat(shorter, "", '/');
      WalkJoins(at, Split(shorter, '/'), [""]);
    }
  }

  lemma WalkTrimmed(at: seq<string>, s: string)
    ensures Walk(at, Split(TrimBoth(s, Slash), '/')) == Walk(at, Split(s, '/'))
  {
    WalkTrimStart(at, s);
    WalkTrimEnd(at, TrimStart(s, Slash));
  }

  lemma {:induction false} JoinEndsInName(names: seq<string>)
    requires Clean(names) && names != []
    ensures Join(names, '/') != "" && !Slash(Join(names, '/')[|Join(names, '/')| - 1])
  {
    assert names[0] in names;
    if |names| > 1 { JoinEndsInName(names[1..]); }
  }

  lemma TrimRender(names: seq<string>)
    requires Clean(names)
    ensures TrimEnd(Render(names), Slash) == if names == [] then "" else Render(names)
  {
    if names == [] {
      assert Render(names) == "/" && "/"[..0] == "";
    } else {
      JoinEndsInName(names);
      var s := Render(names);
      assert s[|s| - 1] == Join(names, '/')[|Join(names, '/')| - 1];
    }
  }

  /** Joining a segment to a normal path walks the segment from there. */
  lemma JoinWalks(base: seq<string>, segment: string)
    requires Clean(base) && (base == [] ==> TrimBoth(segment, Slash) != "")
    ensures var end := Walk(base, Split(segment, '/'));
            Clean(end) && JoinUnixPath(Render(base), segment) == Render(end)
  {
    var rest := TrimBoth(segment, Slash);
    TrimRender(base);
    WalkTrimmed(base, segment);
    SplitPieces(segment, '/');
    WalkStaysClean(base, Split(segment, '/'));
    if rest == "" {
      assert Split("", '/') == [""];
    } else {
      var stem := TrimEnd(Render(base), Slash);
      SplitConcat(stem, rest, '/');
      assert stem + ['/'] + rest == stem + "/" + rest;
      WalkJoins([], Split(stem, '/'), Split(rest, '/'));
      if base != [] { WalkRender(base); }
    }
  }

  lemma NormalizedWalks(path: string)
    requires "/" <= path
    ensures var end := Walk([], Split(path, '/')); Clean(end) && Normalized(path) == Render(end)
  {
    SplitPieces(path, '/');
    WalkStaysClean([], Split(path, '/'));
  }
}
