/** What the tracked working directory means: lexical pathname resolution, as section 4.13 of
    POSIX.1-2017 has it when no name is a symbolic link, with its exceptions. Directories are
    the sequences of names from the root down. */
module CwdTracking {
  import opened Wrappers
  import opened Strings
  import opened UnixPaths

  /** Where `cd t` leads, for a target without the blanks and quotes around it. */
  function Resolved(home: seq<string>, cwd: seq<string>, t: string): seq<string> {
    if t == "" || t == "~" then home
    else if "~/" <= t then Walk(home, Split(t[2..], '/'))
    else if "/" <= t then Walk([], Split(t, '/'))
    else Walk(cwd, Split(t, '/'))
  }

  /** Where the code goes instead: a bare ".." at home or at the root leads home, and every
      leading "~/" counts as the home directory, not only the first. */
  function Tracked(home: seq<string>, cwd: seq<string>, t: string): seq<string> {
    if t == ".." && (cwd == home || cwd == []) then home
    else if "~/" <= t then Walk(home, Split(StripTildes(t), '/'))
    else Resolved(home, cwd, t)
  }

  // ---- The shape of a walk ----

  /** How far above its start a walk climbs, and the names it then leaves. */
  function Shape(names: seq<string>): (nat, seq<string>) {
    if names == [] then (0, [])
    else
      var (climb, tail) := Shape(names[..|names| - 1]);
      var name := names[|names| - 1];
      if name == "" || name == "." then (climb, tail)
      else if name != ".." then (climb, tail + [name])
      else if tail == [] then (climb + 1, [])
      else (climb, tail[..|tail| - 1])
  }

  function Climb(names: seq<string>): nat { Shape(names).0 }

  function Up(at: seq<string>, n: nat): seq<string> { if n <= |at| then at[..|at| - n] else [] }

  lemma StepOnShape(at: seq<string>, climb: nat, tail: seq<string>, name: string)
    ensures StepTo(Up(at, climb) + tail, name) ==
            if name == "" || name == "." then Up(at, climb) + tail
            else if name != ".." then Up(at, climb) + (tail + [name])
            else if tail == [] then Up(at, climb + 1) + []
            else Up(at, climb) + tail[..|tail| - 1]
  {
    var s := Up(at, climb) + tail;
    if name == ".." && tail == [] {
      assert s == Up(at, climb) && Up(at, climb + 1) + [] == Up(at, climb + 1);
    } else if name == ".." {
      assert s[..|s| - 1] == Up(at, climb) + tail[..|tail| - 1];
    }
  }

  lemma {:induction false} WalkHasShape(at: seq<string>, names: seq<string>)
    ensures Walk(at, names) == Up(at, Climb(names)) + Shape(names).1
  {
    if names == [] {
      assert Up(at, 0) + [] == at;
    } else {
      var front, last := names[..|names| - 1], names[|names| - 1];
      WalkHasShape(at, front);
      assert names == front + [last];
      WalkJoins(at, front, [last]);
      assert Walk(Walk(at, front), [last]) == StepTo(Walk(at, front), last);
      StepOnShape(at, Shape(front).0, Shape(front).1, last);
    }
  }

  // ---- Leading tildes ----

  function Tildes(n: nat): seq<string> { if n == 0 then [] else ["~"] + Tildes(n - 1) }

  function TildeCount(s: string): nat { if "~/" <= s then 1 + TildeCount(s[2..]) else 0 }

  lemma {:induction false} TildesAreClean(n: nat)
    ensures |Tildes(n)| == n && Clean(Tildes(n))
  {
    if n > 0 { TildesAreClean(n - 1); }
  }

  lemma InTurn<T>(a: seq<T>, b: seq<T>, c: seq<T>)
    ensures a + (b + c) == a + b + c
  {
  }

  lemma OneTildeSplits(s: string)
    requires "~/" <= s
    ensures Split(s, '/') == ["~"] + Split(s[2..], '/')
  {
    assert s == "~" + ['/'] + s[2..];
    SplitFirst("~", s[2..], '/');
  }

  lemma {:induction false} TildesSplit(s: string)
    ensures Split(s, '/') == Tildes(TildeCount(s)) + Split(StripTildes(s), '/')
    ensures |Tildes(TildeCount(s))| == TildeCount(s) && Clean(Tildes(TildeCount(s)))
    decreases |s|
  {
    TildesAreClean(TildeCount(s));
    if "~/" <= s {
      TildesSplit(s[2..]);
      OneTildeSplits(s);
      InTurn(["~"], Tildes(TildeCount(s[2..])), Split(StripTildes(s), '/'));
    }
  }

  // ---- The code against lexical resolution ----

  lemma FrontIsClean(names: seq<string>)
    requires Clean(names) && names != []
    ensures Clean(names[..|names| - 1])
  {
    var front := names[..|names| - 1];
    forall name | name in front ensures name in names {
      var i :| 0 <= i < |front| && front[i] == name;
      assert names[i] == name;
    }
  }

  lemma ParentGoesUp(home: seq<string>, cwd: seq<string>)
    requires Clean(home) && home != [] && Clean(cwd)
    ensures ParentUnixPath(Render(cwd), Render(home)) ==
            Render(if cwd == home || cwd == [] then home else cwd[..|cwd| - 1])
  {
    TrimRender(cwd);
    TrimRender(home);
    if cwd != [] {
      if Render(cwd) == Render(home) { RenderIsInjective(cwd, home); }
      else {
        var front, last := cwd[..|cwd| - 1], cwd[|cwd| - 1];
        assert last in cwd && cwd == front + [last];
        FrontIsClean(cwd);
        LastNameCut(front, last);
      }
    }
  }

  lemma {:induction false} JoinSnoc(names: seq<string>, last: string)
    requires names != []
    ensures Join(names + [last], '/') == Join(names, '/') + "/" + last
  {
    if |names| > 1 {
      assert (names + [last])[1..] == names[1..] + [last];
      JoinSnoc(names[1..], last);
    }
  }

  lemma {:induction false} NoSlashCut(stem: string, last: string)
    requires '/' !in last
    ensures BeforeLastSlash(stem + "/" + last) == Some(stem)
  {
    var s := stem + "/" + last;
    if last == "" {
      assert s[..|s| - 1] == stem;
    } else {
      assert last[|last| - 1] in last;
      assert s[..|s| - 1] == stem + "/" + last[..|last| - 1];
      NoSlashCut(stem, last[..|last| - 1]);
    }
  }

  lemma LastNameCut(front: seq<string>, last: string)
    requires Clean(front) && '/' !in last
    ensures BeforeLastSlash(Render(front + [last])) == Some(if front == [] then "" else Render(front))
  {
    if front == [] {
      assert front + [last] == [last] && Render([last]) == "" + "/" + last;
      NoSlashCut("", last);
    } else {
      JoinSnoc(front, last);
      assert Render(front + [last]) == Render(front) + "/" + last;
      NoSlashCut(Render(front), last);
    }
  }

  /** From a normal directory the code goes to the normal directory that `Tracked` says. */
  lemma CdTracks(home: seq<string>, cwd: seq<string>, target: string)
    requires Clean(home) && home != [] && Clean(cwd)
    ensures Clean(Tracked(home, cwd, Trimmed(target)))
    ensures CdTarget(Render(cwd), Render(home), target) == Render(Tracked(home, cwd, Trimmed(target)))
  {
    var t := Trimmed(target);
    if t == "" || t == "~" {
    } else if "~/" <= t {
      assert t[0] == '~' && t != "..";
      JoinWalks(home, StripTildes(t));
    } else if "/" <= t {
      assert t[0] == '/' && t != "..";
      NormalizedWalks(t);
    } else if t == ".." {
      ParentGoesUp(home, cwd);
      DotDotSteps(cwd);
      if cwd != [] { FrontIsClean(cwd); }
    } else if t == "." {
      DotSteps(cwd);
    } else {
      SegmentIsNotEmpty(t);
      JoinWalks(cwd, t);
    }
  }

  lemma DotDotSteps(cwd: seq<string>)
    ensures Walk(cwd, Split("..", '/')) == if cwd == [] then [] else cwd[..|cwd| - 1]
  {
    SplitWhole("..", '/');
    assert Walk(cwd, [".."]) == StepTo(cwd, "..");
  }

  lemma DotSteps(cwd: seq<string>)
    ensures Walk(cwd, Split(".", '/')) == cwd
  {
    SplitWhole(".", '/');
    assert Walk(cwd, ["."]) == StepTo(cwd, ".");
  }

  lemma {:induction false} TrimEndKeepsFirst(s: string, drop: char -> bool)
    requires s != "" && !drop(s[0])
    ensures TrimEnd(s, drop) != "" && TrimEnd(s, drop) <= s
  {
    if drop(s[|s| - 1]) { TrimEndKeepsFirst(s[..|s| - 1], drop); }
  }

  lemma SegmentIsNotEmpty(t: string)
    requires t != "" && !("/" <= t)
    ensures TrimBoth(t, Slash) != ""
  {
    TrimEndKeepsFirst(t, Slash);
  }

  /** The code agrees with lexical resolution exactly unless the target is a bare ".." at home
      or at the root, or has several leading "~/" and does not climb above all of them and the
      home directory again. */
  lemma CdIsLexical(home: seq<string>, cwd: seq<string>, target: string)
    requires Clean(home) && home != [] && Clean(cwd)
    ensures var t := Trimmed(target);
            CdTarget(Render(cwd), Render(home), target) == Render(Resolved(home, cwd, t)) <==>
            !(t == ".." && (cwd == home || cwd == []))
            && (TildeCount(t) <= 1 || Climb(Split(StripTildes(t), '/')) >= |home| + TildeCount(t) - 1)
  {
    var t := Trimmed(target);
    CdTracks(home, cwd, target);
    ResolvedIsClean(home, cwd, t);
    if t == ".." { DotDotSteps(cwd); }
    if "~/" <= t { RepeatedTildes(home, t); }
    if Render(Tracked(home, cwd, t)) == Render(Resolved(home, cwd, t)) {
      RenderIsInjective(Tracked(home, cwd, t), Resolved(home, cwd, t));
    }
  }

  lemma ResolvedIsClean(home: seq<string>, cwd: seq<string>, t: string)
    requires Clean(home) && Clean(cwd)
    ensures Clean(Resolved(home, cwd, t))
  {
    if "~/" <= t {
      SplitPieces(t[2..], '/');
      WalkStaysClean(home, Split(t[2..], '/'));
    } else {
      SplitPieces(t, '/');
      WalkStaysClean([], Split(t, '/'));
      WalkStaysClean(cwd, Split(t, '/'));
    }
  }

  lemma RepeatedTildes(home: seq<string>, t: string)
    requires "~/" <= t
    ensures Walk(home, Split(StripTildes(t), '/')) == Walk(home, Split(t[2..], '/')) <==>
            TildeCount(t) <= 1 || Climb(Split(StripTildes(t), '/')) >= |home| + TildeCount(t) - 1
  {
    var rest, more := Split(StripTildes(t), '/'), Tildes(TildeCount(t[2..]));
    TildesSplit(t[2..]);
    WalkJoins(home, more, rest);
    WalkClean(home, more);
    WalkHasShape(home, rest);
    WalkHasShape(home + more, rest);
    ClimbsForget(home, more, Climb(rest), Shape(rest).1);
  }

  /** Names that a walk climbs above again make no difference, and other names do. */
  lemma ClimbsForget(at: seq<string>, more: seq<string>, climb: nat, tail: seq<string>)
    ensures Up(at, climb) + tail == Up(at + more, climb) + tail <==> more == [] || climb >= |at| + |more|
  {
    if more == [] {
      assert at + more == at;
    } else if climb < |at| + |more| {
      assert |Up(at + more, climb)| == |at| + |more| - climb;
    }
  }

  // ---- Sequences of targets ----

  function Follow(home: string, cwd: string, targets: seq<string>): string
    decreases |targets|
  {
    if targets == [] then cwd else Follow(home, CdTarget(cwd, home, targets[0]), targets[1..])
  }

  function TrackedAll(home: seq<string>, cwd: seq<string>, targets: seq<string>): seq<string>
    decreases |targets|
  {
    if targets == [] then cwd else TrackedAll(home, Tracked(home, cwd, Trimmed(targets[0])), targets[1..])
  }

  /** The tracked directory stays absolute and normal over every sequence of targets. */
  lemma {:induction false} CwdStaysNormal(home: seq<string>, cwd: seq<string>, targets: seq<string>)
    requires Clean(home) && home != [] && Clean(cwd)
    ensures Clean(TrackedAll(home, cwd, targets))
    ensures Follow(Render(home), Render(cwd), targets) == Render(TrackedAll(home, cwd, targets))
    decreases |targets|
  {
    if targets != [] {
      CdTracks(home, cwd, targets[0]);
      CwdStaysNormal(home, Tracked(home, cwd, Trimmed(targets[0])), targets[1..]);
    }
  }

  // ---- How a path is shown ----

  lemma {:induction false} JoinSplits(a: seq<string>, b: seq<string>)
    requires a != [] && b != []
    ensures Join(a + b, '/') == Join(a, '/') + "/" + Join(b, '/')
  {
    if |a| > 1 {
      JoinSplits(a[1..], b);
      assert (a + b)[1..] == a[1..] + b;
    } else {
      assert (a + b)[1..] == b;
    }
  }

  lemma RenderBelow(home: seq<string>, rest: seq<string>)
    requires home != [] && rest != []
    ensures Render(home + rest) == Render(home) + "/" + Join(rest, '/')
  {
    JoinSplits(home, rest);
  }

  /** The home directory is shown as "~", what is below it with "~" in place of the home
      directory, and everything else as it is. */
  lemma PathIsShown(home: seq<string>, names: seq<string>)
    requires Clean(home) && home != [] && Clean(names)
    ensures DisplayPath(Render(home), Render(names)) ==
            if names == home then "~"
            else if home <= names then "~/" + Join(names[|home|..], '/')
            else Render(names)
  {
    TrimRender(home);
    var h, p := Render(home), Render(names);
    if home <= names {
      if names != home {
        var rest := names[|home|..];
        assert names == home + rest;
        RenderBelow(home, rest);
        DisplayBelow(h, Join(rest, '/'));
      }
    } else {
      if p == h { RenderIsInjective(names, home); }
      if h + "/" <= p { NamesBelow(home, names, p[|h| + 1..]); }
    }
  }

  // ---- Going where a shown path says ----

  /** The length of a normal path, but for the root. */
  function Weight(names: seq<string>): nat {
    if names == [] then 0 else 1 + |names[0]| + Weight(names[1..])
  }

  lemma {:induction false} WeightIsLength(names: seq<string>)
    ensures |Render(names)| == if names == [] then 1 else Weight(names)
  {
    if |names| > 1 { WeightIsLength(names[1..]); }
  }

  lemma {:induction false} WeightJoins(a: seq<string>, b: seq<string>)
    ensures Weight(a + b) == Weight(a) + Weight(b)
  {
    if a == [] { assert a + b == b; }
    else {
      assert (a + b)[1..] == a[1..] + b;
      WeightJoins(a[1..], b);
    }
  }

  lemma {:induction false} WalkIsNotHeavier(at: seq<string>, names: seq<string>)
    ensures Weight(Walk(at, names)) <= Weight(at) + Weight(names)
    decreases |names|
  {
    if names != [] {
      var next := StepTo(at, names[0]);
      WeightJoins(at, [names[0]]);
      if at != [] {
        assert at == at[..|at| - 1] + [at[|at| - 1]];
        WeightJoins(at[..|at| - 1], [at[|at| - 1]]);
      }
      WalkIsNotHeavier(next, names[1..]);
    }
  }

  lemma {:induction false} SplitWeight(s: string)
    ensures Weight(Split(s, '/')) == |s| + 1
  {
    if s != "" { SplitWeight(s[1..]); }
  }

  lemma {:induction false} StripShortens(t: string)
    requires "~/" <= t
    ensures |StripTildes(t)| <= |t| - 2
  {
    if "~/" <= t[2..] { StripShortens(t[2..]); }
  }

  /** A shown path begins with "~" or "/", so trimming can only take from its end. */
  lemma ShownIsTrimmedAtTheEnd(d: string)
    requires d != "" && (d[0] == '~' || d[0] == '/')
    ensures Trimmed(d) <= d && Trimmed(d) != ""
  {
    TrimEndKeepsFirst(d, White);
    TrimEndKeepsFirst(TrimEnd(d, White), Quote);
  }

  /** A target cut short at its end leads to a path that is shorter than the shown one. */
  lemma CutTargetFallsShort(home: seq<string>, names: seq<string>, cwd: seq<string>, t: string)
    requires Clean(home) && home != [] && Clean(names)
    requires var d := DisplayPath(Render(home), Render(names)); t < d && t != "" && (d[0] == '~' || d[0] == '/')
    ensures Tracked(home, cwd, t) != names
  {
    var d := DisplayPath(Render(home), Render(names));
    TrimRender(home);
    WeightIsLength(home);
    WeightIsLength(names);
    assert t[0] == d[0];
    if t == "~" {
      assert |d| >= 2;
    } else if "~/" <= t {
      StripShortens(t);
      WalkIsNotHeavier(home, Split(StripTildes(t), '/'));
      SplitWeight(StripTildes(t));
    } else if "/" <= t {
      WalkIsNotHeavier([], Split(t[1..], '/'));
      SplitWeight(t[1..]);
      assert Split(t, '/') == [""] + Split(t[1..], '/');
      assert ([""] + Split(t[1..], '/'))[1..] == Split(t[1..], '/');
    }
  }

  /** `cd` to the shown form of a normal path goes to that path, exactly when the shown form
      has nothing to trim at its end and does not begin with "~/~/". */
  lemma ShownPathLeadsBack(home: seq<string>, names: seq<string>, cwd: seq<string>)
    requires Clean(home) && home != [] && Clean(names) && Clean(cwd)
    ensures var d := DisplayPath(Render(home), Render(names));
            CdTarget(Render(cwd), Render(home), d) == Render(names) <==> Trimmed(d) == d && !("~/~/" <= d)
  {
    var d := DisplayPath(Render(home), Render(names));
    var t := Trimmed(d);
    TrimRender(home);
    CdTracks(home, cwd, d);
    if Render(Tracked(home, cwd, t)) == Render(names) { RenderIsInjective(Tracked(home, cwd, t), names); }
    assert d != "" && (d[0] == '~' || d[0] == '/');
    ShownIsTrimmedAtTheEnd(d);
    if t == d {
      ShownLeads(home, names, cwd);
    } else {
      CutTargetFallsShort(home, names, cwd, t);
    }
  }

  lemma ShownLeads(home: seq<string>, names: seq<string>, cwd: seq<string>)
    requires Clean(home) && home != [] && Clean(names)
    ensures var d := DisplayPath(Render(home), Render(names));
            Tracked(home, cwd, d) == names <==> !("~/~/" <= d)
  {
    var h, p := Render(home), Render(names);
    TrimRender(home);
    if p == h {
      RenderIsInjective(names, home);
    } else if h + "/" <= p {
      ShownBelowHome(home, names, p[|h| + 1..]);
    } else {
      WalkRender(names);
    }
  }

  lemma NamesBelow(home: seq<string>, names: seq<string>, q: string)
    requires Clean(home) && home != [] && Clean(names) && Render(names) == Render(home) + "/" + q
    ensures names == home + Split(q, '/')
  {
    assert names != [];
    SplitConcat(Render(home), q, '/');
    SplitRender(home);
    SplitRender(names);
    SameTail("", names, home, Split(q, '/'));
  }

  lemma SameTail(first: string, a: seq<string>, b: seq<string>, c: seq<string>)
    requires [first] + a == [first] + b + c
    ensures a == b + c
  {
    assert a == ([first] + a)[1..] && b + c == ([first] + b + c)[1..];
  }

  lemma TildeInFront(q: string)
    ensures ("~/" + q)[2..] == q && ("~/~/" <= "~/" + q <==> "~/" <= q)
  {
    var s := "~/" + q;
    assert s[2..] == q;
    if "~/" <= q { assert s[2] == '~' && s[3] == '/'; }
    if "~/~/" <= s { assert q[0] == s[2] && q[1] == s[3]; }
  }

  lemma BelowText(h: string, q: string)
    ensures var p := h + "/" + q;
            |p| > |h| && h + "/" <= p && p[|h|..] == "/" + q && "~" + p[|h|..] == "~/" + q
  {
    var p := h + "/" + q;
    assert p == h + ("/" + q) && p[|h|..] == "/" + q;
    assert "~" + ("/" + q) == "~/" + q;
  }

  lemma DisplayBelow(h: string, q: string)
    requires TrimEnd(h, Slash) == h
    ensures DisplayPath(h, h + "/" + q) == "~/" + q
    ensures ("~/" + q)[2..] == q && ("~/~/" <= "~/" + q <==> "~/" <= q)
  {
    BelowText(h, q);
    TildeInFront(q);
  }

  lemma ShownBelowHome(home: seq<string>, names: seq<string>, q: string)
    requires Clean(home) && home != [] && Clean(names) && Render(names) == Render(home) + "/" + q
    ensures var d := DisplayPath(Render(home), Render(names));
            d == "~/" + q && (Walk(home, Split(StripTildes(d), '/')) == names <==> !("~/~/" <= d))
  {
    TrimRender(home);
    DisplayBelow(Render(home), q);
    NamesBelow(home, names, q);
    TildesSplit(q);
    WalkBelow(home, names, Tildes(TildeCount(q)), Split(StripTildes(q), '/'));
  }

  /** A walk from home along the last of the names misses those in between. */
  lemma WalkBelow(home: seq<string>, names: seq<string>, between: seq<string>, rest: seq<string>)
    requires Clean(names) && names == home + (between + rest)
    ensures Walk(home, rest) == names <==> between == []
  {
    assert forall name | name in rest :: name in names;
    WalkClean(home, rest);
    assert |home + rest| == |names| - |between|;
    if between == [] { assert between + rest == rest; }
  }
}
