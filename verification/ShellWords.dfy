/** Quoting for remote shells, against a lexer for the words of a POSIX shell.

    The lexer follows sections 2.2 (quoting) and 2.3 (token recognition) of the Shell Command
    Language of POSIX.1-2017. It gives up on input whose words are subject to expansion:
    the words it does read are exactly the words the command will get. */
module ShellWords {
  import opened Wrappers

  /** `tilde` marks a word that begins with an unquoted "~" before a "/" or its end; `text` is
      then what follows the "~". */
  datatype Token =
    | Word(tilde: bool, text: string)
    | Operator(sign: string)
    | IoNumber(digits: string)

  /** A word being read. `quoted` tells whether any of it was quoted. */
  datatype Part = Part(tilde: bool, quoted: bool, text: string)

  datatype State =
    | Gap
    | Bare(word: Part)
    | Single(word: Part)
    | Double(word: Part)
    | Operating(sign: string)

  const NO_WORD := Part(false, false, "")

  predicate Blank(c: char) { c == ' ' || c == '\t' }

  predicate OperatorChar(c: char) { c in "|&;<>()\n" }

  /** Characters that have the shell substitute, match files or comment when unquoted. */
  predicate Expands(c: char) { c in "$`*?[#" }

  predicate EscapableInDouble(c: char) { c in "$`\"\\" }

  predicate Digits(s: string) { s != "" && forall i | 0 <= i < |s| :: '0' <= s[i] <= '9' }

  predicate EndsWord(s: string) { s == "" || Blank(s[0]) || OperatorChar(s[0]) }

  /** Whether `c` makes a longer operator of `sign`. */
  predicate Extends(sign: string, c: char) {
    || (sign == "&" && c == '&') || (sign == "|" && c == '|') || (sign == ";" && c == ';')
    || (sign == "<" && c in "<&>") || (sign == ">" && c in ">&|") || (sign == "<<" && c == '-')
  }

  function More(w: Part, c: char): Part { w.(text := w.text + [c]) }

  /** The word as a token when `next` follows: digits before a redirection are its number. */
  function Ended(w: Part, next: string): Token {
    if !w.quoted && !w.tilde && Digits(w.text) && next != "" && next[0] in "<>" then IoNumber(w.text)
    else Word(w.tilde, w.text)
  }

  function Then(first: Token, rest: Option<seq<Token>>): Option<seq<Token>> {
    match rest
    case Some(tokens) => Some([first] + tokens)
    case None => None
  }

  function Lex(st: State, s: string): Option<seq<Token>>
    decreases |s|, if st.Gap? then 1 else 2
  {
    match st
    case Gap =>
      if s == "" then Some([])
      else if Blank(s[0]) then Lex(Gap, s[1..])
      else if OperatorChar(s[0]) then Lex(Operating([s[0]]), s[1..])
      else if s[0] == '~' then
        if EndsWord(s[1..]) || s[1] == '/' then Lex(Bare(Part(true, false, "")), s[1..]) else None
      else LexBare(NO_WORD, s)
    case Bare(w) =>
      if EndsWord(s) then Then(Ended(w, s), Lex(Gap, s)) else LexBare(w, s)
    case Single(w) =>
      if s == "" then None
      else if s[0] == '\'' then Lex(Bare(w.(quoted := true)), s[1..])
      else Lex(Single(More(w, s[0])), s[1..])
    case Double(w) =>
      if s == "" || s[0] == '$' || s[0] == '`' then None
      else if s[0] == '"' then Lex(Bare(w.(quoted := true)), s[1..])
      else if s[0] == '\\' && |s| > 1 && s[1] == '\n' then Lex(Double(w), s[2..])
      else if s[0] == '\\' && |s| > 1 && EscapableInDouble(s[1]) then Lex(Double(More(w, s[1])), s[2..])
      else Lex(Double(More(w, s[0])), s[1..])
    case Operating(sign) =>
      if s != "" && Extends(sign, s[0]) then Lex(Operating(sign + [s[0]]), s[1..])
      else Then(Operator(sign), Lex(Gap, s))
  }

  /** One more character of a word, outside quotes. */
  function LexBare(w: Part, s: string): Option<seq<Token>>
    requires s != ""
    decreases |s|, 0
  {
    if s[0] == '\'' then Lex(Single(w), s[1..])
    else if s[0] == '"' then Lex(Double(w), s[1..])
    else if s[0] == '\\' then
      if |s| == 1 then None
      else if s[1] == '\n' then Lex(Bare(w), s[2..])
      else Lex(Bare(More(w, s[1]).(quoted := true)), s[2..])
    else if Expands(s[0]) then None
    else Lex(Bare(More(w, s[0])), s[1..])
  }

  /** The tokens of a command line. */
  function Tokens(s: string): Option<seq<Token>> { Lex(Gap, s) }

  // ---- Quoting ----

  const QUOTE_IN_QUOTES := "'\"'\"'"

  /** `value.replace('\'', "'\"'\"'")` */
  function Escaped(value: string): string {
    if value == "" then ""
    else (if value[0] == '\'' then QUOTE_IN_QUOTES else [value[0]]) + Escaped(value[1..])
  }

  function ShellSingleQuote(value: string): string { "'" + Escaped(value) + "'" }

  /** From inside single quotes, the escaped value and its closing quote add just the value. */
  lemma {:induction false} EscapedIsRead(w: Part, value: string, rest: string)
    ensures Lex(Single(w), Escaped(value) + "'" + rest) == Lex(Bare(w.(quoted := true, text := w.text + value)), rest)
    decreases |value|
  {
    var s := Escaped(value) + "'" + rest;
    if value == "" {
      assert s == "'" + rest && s[1..] == rest && w.text + value == w.text;
    } else {
      var c, tail := value[0], Escaped(value[1..]) + "'" + rest;
      assert w.text + [c] + value[1..] == w.text + value;
      if c == '\'' {
        assert s == QUOTE_IN_QUOTES + tail;
        QuotedQuoteIsRead(w, tail);
        EscapedIsRead(More(w, c).(quoted := true), value[1..], rest);
      } else {
        assert s == [c] + tail && s[1..] == tail;
        EscapedIsRead(More(w, c), value[1..], rest);
      }
    }
  }

  lemma QuotedQuoteIsRead(w: Part, tail: string)
    ensures Lex(Single(w), QUOTE_IN_QUOTES + tail) == Lex(Single(More(w, '\'').(quoted := true)), tail)
  {
    var s := QUOTE_IN_QUOTES + tail;
    var q := w.(quoted := true);
    assert s[0] == '\'' && s[1] == '"' && s[2] == '\'' && s[3] == '"' && s[4] == '\'' && s[5..] == tail;
    assert s[1..][1..] == s[2..] && s[2..][1..] == s[3..] && s[3..][1..] == s[4..] && s[4..][1..] == tail;
    assert Lex(Single(w), s) == Lex(Bare(q), s[1..]);
    assert Lex(Bare(q), s[1..]) == Lex(Double(q), s[2..]);
    assert Lex(Double(q), s[2..]) == Lex(Double(More(q, '\'')), s[3..]);
    assert Lex(Double(More(q, '\'')), s[3..]) == Lex(Bare(More(q, '\'')), s[4..]);
    assert Lex(Bare(More(q, '\'')), s[4..]) == Lex(Single(More(q, '\'')), tail);
  }

  /** A quoted value in front of anything, as part of a word or as its beginning. */
  lemma QuotedIsRead(w: Part, value: string, rest: string)
    ensures Lex(Bare(w), ShellSingleQuote(value) + rest) == Lex(Bare(w.(quoted := true, text := w.text + value)), rest)
    ensures Lex(Gap, ShellSingleQuote(value) + rest) == Lex(Bare(Part(false, true, value)), rest)
  {
    var s := ShellSingleQuote(value) + rest;
    assert s[0] == '\'' && s[1..] == Escaped(value) + "'" + rest;
    EscapedIsRead(w, value, rest);
    EscapedIsRead(NO_WORD, value, rest);
    assert "" + value == value;
  }

  /** The quoted form of any string is one word, and that word is the string. */
  lemma QuoteIsOneWord(value: string)
    ensures Tokens(ShellSingleQuote(value)) == Some([Word(false, value)])
  {
    assert ShellSingleQuote(value) + "" == ShellSingleQuote(value);
    QuotedIsRead(NO_WORD, value, "");
    assert [Word(false, value)] + [] == [Word(false, value)];
  }

  // ---- Whole command lines ----

  /** Characters that stand for themselves outside quotes, also at the start of a word. */
  predicate PlainChar(c: char) {
    'a' <= c <= 'z' || 'A' <= c <= 'Z' || '0' <= c <= '9' || c == '-' || c == '_' || c == '.' || c == '/'
  }

  predicate Plain(s: string) { forall i | 0 <= i < |s| :: PlainChar(s[i]) }

  lemma PlainIsOrdinary(c: char)
    requires PlainChar(c)
    ensures !Blank(c) && !OperatorChar(c) && !Expands(c) && c != '\'' && c != '"' && c != '\\' && c != '~'
  {
  }

  lemma {:induction false} PlainIsRead(w: Part, s: string, rest: string)
    requires Plain(s)
    ensures Lex(Bare(w), s + rest) == Lex(Bare(w.(text := w.text + s)), rest)
    decreases |s|
  {
    if s == "" {
      assert s + rest == rest && w.text + s == w.text;
    } else {
      assert (s + rest)[1..] == s[1..] + rest;
      PlainIsOrdinary(s[0]);
      PlainIsRead(More(w, s[0]), s[1..], rest);
      assert w.text + [s[0]] + s[1..] == w.text + s;
    }
  }

  /** The words a command line is made of: plain text or a quoted value. */
  datatype Piece = Text(text: string) | Quoted(value: string)

  function Render(p: Piece): string {
    match p
    case Text(text) => text
    case Quoted(value) => ShellSingleQuote(value)
  }

  predicate IsSign(s: string) {
    (|s| == 1 && OperatorChar(s[0])) || (|s| == 2 && OperatorChar(s[0]) && Extends([s[0]], s[1]) && OperatorChar(s[1]))
  }

  lemma LongSignIsRead(sign: string, rest: string)
    requires IsSign(sign) && |sign| == 2 && (rest == "" || !Extends(sign, rest[0]))
    ensures Lex(Operating([sign[0]]), sign[1..] + rest) == Then(Operator(sign), Lex(Gap, rest))
  {
    var s := sign[1..] + rest;
    assert s[0] == sign[1] && s[1..] == rest && [sign[0]] + [sign[1]] == sign;
    assert Lex(Operating([sign[0]]), s) == Lex(Operating(sign), rest);
  }

  lemma SignIsRead(sign: string, rest: string)
    requires IsSign(sign) && (rest == "" || !Extends(sign, rest[0]))
    ensures Lex(Gap, sign + rest) == Then(Operator(sign), Lex(Gap, rest))
  {
    var s := sign + rest;
    assert s[1..] == sign[1..] + rest;
    if |sign| == 1 {
      assert s[1..] == rest && [s[0]] == sign;
    } else {
      LongSignIsRead(sign, rest);
    }
  }

  lemma TextIsRead(text: string, rest: string)
    requires text != "" && Plain(text)
    ensures Lex(Gap, text + rest) == Lex(Bare(Part(false, false, text)), rest)
  {
    var s := text + rest;
    PlainIsOrdinary(text[0]);
    assert s[0] == text[0] && s[1..] == text[1..] + rest;
    PlainIsRead(More(NO_WORD, s[0]), text[1..], rest);
    assert "" + [s[0]] + text[1..] == text;
  }

  // ---- Lines of words ----

  predicate IsWord(p: Piece) { (p.Text? && p.text != "" && Plain(p.text)) || p.Quoted? }

  predicate AllWords(words: seq<Piece>) { forall p | p in words :: IsWord(p) }

  /** Words with a space between any two. */
  function Line(words: seq<Piece>): string {
    if words == [] then ""
    else if |words| == 1 then Render(words[0])
    else Render(words[0]) + " " + Line(words[1..])
  }

  function WordOf(p: Piece): Token {
    match p
    case Text(text) => Word(false, text)
    case Quoted(value) => Word(false, value)
  }

  function WordsOf(words: seq<Piece>): seq<Token> {
    if words == [] then [] else [WordOf(words[0])] + WordsOf(words[1..])
  }

  /** A line built up from its end. */
  lemma LineCons(p: Piece, words: seq<Piece>)
    requires IsWord(p) && AllWords(words)
    ensures AllWords([p] + words)
    ensures Line([p] + words) == if words == [] then Render(p) else Render(p) + " " + Line(words)
    ensures WordsOf([p] + words) == [WordOf(p)] + WordsOf(words)
  {
    assert ([p] + words)[1..] == words;
  }

  /** Two words in front of others. */
  lemma LineConsTwice(p: Piece, q: Piece, words: seq<Piece>)
    requires IsWord(p) && IsWord(q) && AllWords(words) && words != []
    ensures AllWords([p] + ([q] + words))
    ensures Line([p] + ([q] + words)) == Render(p) + " " + (Render(q) + " " + Line(words))
    ensures WordsOf([p] + ([q] + words)) == [WordOf(p)] + ([WordOf(q)] + WordsOf(words))
  {
    LineCons(q, words);
    LineCons(p, [q] + words);
  }

  function FollowedBy(first: seq<Token>, rest: Option<seq<Token>>): Option<seq<Token>> {
    match rest
    case Some(tokens) => Some(first + tokens)
    case None => None
  }

  lemma FollowedTwice(first: seq<Token>, second: seq<Token>, rest: Option<seq<Token>>)
    ensures FollowedBy(first, FollowedBy(second, rest)) == FollowedBy(first + second, rest)
  {
    if rest.Some? { assert first + (second + rest.value) == first + second + rest.value; }
  }

  lemma WordIsRead(p: Piece, rest: string)
    requires IsWord(p) && EndsWord(rest) && (rest == "" || rest[0] !in "<>")
    ensures Tokens(Render(p) + rest) == FollowedBy([WordOf(p)], Tokens(rest))
  {
    if p.Text? { TextIsRead(p.text, rest); } else { QuotedIsRead(NO_WORD, p.value, rest); }
  }

  lemma WordAndSpaceAreRead(p: Piece, rest: string)
    requires IsWord(p)
    ensures Tokens(Render(p) + " " + rest) == FollowedBy([WordOf(p)], Tokens(rest))
  {
    assert Render(p) + " " + rest == Render(p) + (" " + rest) && (" " + rest)[1..] == rest;
    WordIsRead(p, " " + rest);
  }

  lemma Regrouped(a: string, b: string, rest: string)
    ensures a + " " + b + rest == a + " " + (b + rest)
  {
  }

  lemma OneMoreWord(words: seq<Piece>, rest: string)
    requires |words| > 1 && AllWords(words)
    requires Tokens(Line(words[1..]) + rest) == FollowedBy(WordsOf(words[1..]), Tokens(rest))
    ensures Tokens(Line(words) + rest) == FollowedBy(WordsOf(words), Tokens(rest))
  {
    Regrouped(Render(words[0]), Line(words[1..]), rest);
    WordAndSpaceAreRead(words[0], Line(words[1..]) + rest);
    FollowedTwice([WordOf(words[0])], WordsOf(words[1..]), Tokens(rest));
  }

  /** A line of words in front of an operator or the end is read as its words. */
  lemma {:induction false} LineIsRead(words: seq<Piece>, rest: string)
    requires words != [] && AllWords(words)
    requires EndsWord(rest) && (rest == "" || rest[0] !in "<>")
    ensures Tokens(Line(words) + rest) == FollowedBy(WordsOf(words), Tokens(rest))
    decreases |words|
  {
    if |words| == 1 {
      assert words[1..] == [] && WordsOf(words) == [WordOf(words[0])];
      WordIsRead(words[0], rest);
    } else {
      LineIsRead(words[1..], rest);
      OneMoreWord(words, rest);
    }
  }

  /** A command that is a line of words. */
  lemma LineIsTheCommand(command: string, words: seq<Piece>)
    requires words != [] && AllWords(words) && command == Line(words)
    ensures Tokens(command) == Some(WordsOf(words))
  {
    LineIsRead(words, "");
    assert Line(words) + "" == command;
    assert WordsOf(words) + [] == WordsOf(words);
  }
}
