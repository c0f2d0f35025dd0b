/** The argument that the panels type behind `cd`: a leading "~" stays outside the quotes so
    that the shell expands it, everything else means itself. */
module CdArgument {
  import opened Wrappers
  import opened Strings
  import opened ShellWords

  predicate AsciiAlphanumeric(c: char) { 'a' <= c <= 'z' || 'A' <= c <= 'Z' || '0' <= c <= '9' }

  predicate SafeSegment(segment: string) {
    segment != "" && forall c | c in segment :: AsciiAlphanumeric(c) || c == '_' || c == '-' || c == '.'
  }

  predicate SafePath(path: string) {
    && path != ""
    && ".." !in Split(path, '/')
    && forall segment | segment in Split(path, '/') && segment != "" :: SafeSegment(segment)
  }

  function ShellCdArgument(value: string): string {
    if value == "~" then "~"
    else if "~/" <= value then
      var rest := value[2..];
      if rest == "" then "~"
      else if SafePath(rest) then "~/" + rest
      else "~/" + ShellSingleQuote(rest)
    else if SafePath(value) then value
    else ShellSingleQuote(value)
  }

  /** The directory that `cd` is to go to. */
  function Target(value: string, home: string): string {
    if value == "~" || value == "~/" then home
    else if "~/" <= value then home + value[1..]
    else value
  }

  /** What becomes of a word when the shell expands its tilde-prefix. */
  function Expanded(word: Token, home: string): string
    requires word.Word?
  {
    if word.tilde then home + word.text else word.text
  }

  lemma SafeIsPlain(path: string)
    requires SafePath(path)
    ensures Plain(path)
  {
    SplitPieces(path, '/');
    forall i | 0 <= i < |path| ensures PlainChar(path[i]) {
      if path[i] != '/' {
        assert path[i] in path;
        var segment :| segment in Split(path, '/') && path[i] in segment;
        assert SafeSegment(segment);
      }
    }
  }

  lemma TildeIsRead(rest: string)
    requires rest == "" || rest[0] == '/'
    ensures Lex(Gap, "~" + rest) == Lex(Bare(Part(true, false, "")), rest)
  {
    var s := "~" + rest;
    assert s[0] == '~' && s[1..] == rest;
    assert rest != "" ==> s[1] == rest[0];
  }

  /** The one word that the shell reads. */
  function CdWord(value: string): Token {
    if value == "~" || value == "~/" then Word(true, "")
    else if "~/" <= value then Word(true, value[1..])
    else Word(false, value)
  }

  /** Whatever the path, the shell reads one word, and it expands to the wanted directory. */
  lemma CdArgumentGoesThere(value: string)
    ensures Tokens(ShellCdArgument(value)) == Some([CdWord(value)])
    ensures forall home :: Expanded(CdWord(value), home) == Target(value, home)
  {
    if value == "~" || value == "~/" {
      TildeAlone();
    } else if "~/" <= value {
      TildePath(value[2..]);
      assert "/" + value[2..] == value[1..];
    } else {
      PathAlone(value);
    }
    forall home ensures Expanded(CdWord(value), home) == Target(value, home) {
      assert home + "" == home;
    }
  }

  lemma TildeAlone()
    ensures Tokens("~") == Some([Word(true, "")])
  {
    assert "~" + "" == "~";
    TildeIsRead("");
    assert [Word(true, "")] + [] == [Word(true, "")];
  }

  lemma TildePath(rest: string)
    requires rest != ""
    ensures Tokens(if SafePath(rest) then "~/" + rest else "~/" + ShellSingleQuote(rest)) == Some([Word(true, "/" + rest)])
  {
    var tail := if SafePath(rest) then rest else ShellSingleQuote(rest);
    var tilde, slash := Part(true, false, ""), Part(true, false, "/");
    assert "~/" + tail == "~" + ("/" + tail);
    TildeIsRead("/" + tail);
    PlainIsRead(tilde, "/", tail);
    assert "" + "/" == "/" && tail + "" == tail;
    if SafePath(rest) {
      SafeIsPlain(rest);
      PlainIsRead(slash, rest, "");
    } else {
      QuotedIsRead(slash, rest, "");
    }
    assert [Word(true, "/" + rest)] + [] == [Word(true, "/" + rest)];
  }

  lemma PathAlone(value: string)
    requires value != "~" && !("~/" <= value)
    ensures Tokens(ShellCdArgument(value)) == Some([Word(false, value)])
  {
    if SafePath(value) {
      SafeIsPlain(value);
      assert value + "" == value;
      TextIsRead(value, "");
      assert [Word(false, value)] + [] == [Word(false, value)];
    } else {
      QuoteIsOneWord(value);
    }
  }
}
