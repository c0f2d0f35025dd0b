/** The command lines that are built around quoted values, and what a shell reads from them. */
module ShellCommands {
  import opened Wrappers
  import opened ShellWords

  function W(text: string): Token { Word(false, text) }

  // ---- sudo, and shells within shells ----

  function SudoWithoutPassword(shellCommand: string): string {
    "sudo -n sh -c " + ShellSingleQuote(shellCommand)
  }

  function SudoWithPassword(shellCommand: string): string {
    "sudo -S -p '' sh -c " + ShellSingleQuote(shellCommand)
  }

  // Lines and their words are built from the end, one word in front at a time.

  function InShell(shellCommand: string): seq<Piece> { [Text("sh")] + ([Text("-c")] + [Quoted(shellCommand)]) }

  lemma ShellLine(shellCommand: string)
    ensures AllWords(InShell(shellCommand)) && InShell(shellCommand) != []
    ensures Line(InShell(shellCommand)) == "sh" + " " + ("-c" + " " + ShellSingleQuote(shellCommand))
    ensures WordsOf(InShell(shellCommand)) == [W("sh")] + ([W("-c")] + [W(shellCommand)])
  {
    LineCons(Quoted(shellCommand), []);
    LineCons(Text("-c"), [Quoted(shellCommand)]);
    LineCons(Text("sh"), [Text("-c")] + [Quoted(shellCommand)]);
    assert [Quoted(shellCommand)] + [] == [Quoted(shellCommand)];
    assert [W(shellCommand)] + [] == [W(shellCommand)];
  }

  lemma InARow<T>(a: T, b: T, c: T, d: T, e: T, f: T, g: T)
    ensures [a] + ([b] + ([c] + ([d] + [e]))) == [a, b, c, d, e]
    ensures [a] + ([b] + ([c] + ([d] + ([e] + [f])))) == [a, b, c, d, e, f]
    ensures [a] + ([b] + ([c] + ([d] + ([e] + ([f] + [g]))))) == [a, b, c, d, e, f, g]
  {
  }

  lemma SudoText(q: string)
    ensures "sudo -n sh -c " + q == "sudo" + " " + ("-n" + " " + ("sh" + " " + ("-c" + " " + q)))
  {
  }

  lemma SudoTextWithPassword(q: string)
    ensures "sudo -S -p '' sh -c " + q ==
            "sudo" + " " + ("-S" + " " + ("-p" + " " + ("''" + " " + ("sh" + " " + ("-c" + " " + q)))))
  {
  }

  lemma SudoLine(shellCommand: string)
    ensures var words := [Text("sudo")] + ([Text("-n")] + InShell(shellCommand));
            && AllWords(words) && words != [] && Line(words) == SudoWithoutPassword(shellCommand)
            && WordsOf(words) == [W("sudo")] + ([W("-n")] + ([W("sh")] + ([W("-c")] + [W(shellCommand)])))
  {
    var sh := InShell(shellCommand);
    ShellLine(shellCommand);
    LineCons(Text("-n"), sh);
    LineCons(Text("sudo"), [Text("-n")] + sh);
    SudoText(ShellSingleQuote(shellCommand));
  }

  /** `sh -c` gets the whole command as one argument. */
  lemma SudoPassesTheCommand(shellCommand: string)
    ensures Tokens(SudoWithoutPassword(shellCommand)) == Some([W("sudo"), W("-n"), W("sh"), W("-c"), W(shellCommand)])
  {
    SudoLine(shellCommand);
    InARow(W("sudo"), W("-n"), W("sh"), W("-c"), W(shellCommand), W(""), W(""));
    LineIsTheCommand(SudoWithoutPassword(shellCommand), [Text("sudo")] + ([Text("-n")] + InShell(shellCommand)));
  }

  function WithEmptyPrompt(shellCommand: string): seq<Piece> { [Text("-p")] + ([Quoted("")] + InShell(shellCommand)) }

  lemma EmptyPromptLine(shellCommand: string)
    ensures AllWords(WithEmptyPrompt(shellCommand)) && WithEmptyPrompt(shellCommand) != []
    ensures Line(WithEmptyPrompt(shellCommand)) == "-p" + " " + ("''" + " " + Line(InShell(shellCommand)))
    ensures WordsOf(WithEmptyPrompt(shellCommand)) == [W("-p")] + ([W("")] + WordsOf(InShell(shellCommand)))
  {
    var sh := InShell(shellCommand);
    ShellLine(shellCommand);
    LineCons(Quoted(""), sh);
    LineCons(Text("-p"), [Quoted("")] + sh);
    assert ShellSingleQuote("") == "''";
  }

  function AskingPassword(shellCommand: string): seq<Piece> {
    [Text("sudo")] + ([Text("-S")] + WithEmptyPrompt(shellCommand))
  }

  lemma SudoLineWithPassword(shellCommand: string)
    ensures var words := AskingPassword(shellCommand);
            && AllWords(words) && words != [] && Line(words) == SudoWithPassword(shellCommand)
            && WordsOf(words) == [W("sudo")] + ([W("-S")] + ([W("-p")] + ([W("")] + ([W("sh")] + ([W("-c")] + [W(shellCommand)])))))
  {
    AskingPasswordLine(shellCommand);
    EmptyPromptLine(shellCommand);
    ShellLine(shellCommand);
    SudoTextWithPassword(ShellSingleQuote(shellCommand));
  }

  lemma AskingPasswordLine(shellCommand: string)
    ensures var words, rest := AskingPassword(shellCommand), WithEmptyPrompt(shellCommand);
            && AllWords(words) && words != []
            && Line(words) == "sudo" + " " + ("-S" + " " + Line(rest))
            && WordsOf(words) == [W("sudo")] + ([W("-S")] + WordsOf(rest))
  {
    var rest := WithEmptyPrompt(shellCommand);
    EmptyPromptLine(shellCommand);
    LineConsTwice(Text("sudo"), Text("-S"), rest);
  }

  lemma SudoPassesTheCommandWithPassword(shellCommand: string)
    ensures Tokens(SudoWithPassword(shellCommand)) ==
            Some([W("sudo"), W("-S"), W("-p"), W(""), W("sh"), W("-c"), W(shellCommand)])
  {
    SudoLineWithPassword(shellCommand);
    InARow(W("sudo"), W("-S"), W("-p"), W(""), W("sh"), W("-c"), W(shellCommand));
    LineIsTheCommand(SudoWithPassword(shellCommand), AskingPassword(shellCommand));
  }

  /** A command handed through any number of sudo shells, each quoting for the next. */
  function Nested(depth: nat, command: string): string {
    if depth == 0 then command else SudoWithoutPassword(Nested(depth - 1, command))
  }

  /** What the shell at that depth is given to run. */
  function Unwrapped(depth: nat, line: string): Option<string> {
    if depth == 0 then Some(line)
    else
      match Tokens(line)
      case Some(tokens) =>
        if |tokens| == 5 && tokens[..4] == [W("sudo"), W("-n"), W("sh"), W("-c")] && tokens[4].Word? && !tokens[4].tilde
        then Unwrapped(depth - 1, tokens[4].text)
        else None
      case None => None
  }

  lemma {:induction false} QuotingIsUndoneAtEveryDepth(depth: nat, command: string)
    ensures Unwrapped(depth, Nested(depth, command)) == Some(command)
  {
    if depth > 0 {
      SudoPassesTheCommand(Nested(depth - 1, command));
      QuotingIsUndoneAtEveryDepth(depth - 1, command);
    }
  }

  // ---- Archives ----

  datatype ArchiveKind = TarGz | TarBz2 | TarXz | Tar | Zip | Gzip

  function RemoteCompressCommand(parent: string, basename: string, archivePath: string): string {
    "tar czf " + ShellSingleQuote(archivePath) + " -C " + ShellSingleQuote(parent) + " " + ShellSingleQuote(basename)
  }

  function RemoteExtractCommand(kind: ArchiveKind, archivePath: string, parent: string): string {
    var archive, dest := ShellSingleQuote(archivePath), ShellSingleQuote(parent);
    match kind
    case TarGz => "tar xzf " + archive + " -C " + dest
    case TarBz2 => "tar xjf " + archive + " -C " + dest
    case TarXz => "tar xJf " + archive + " -C " + dest
    case Tar => "tar xf " + archive + " -C " + dest
    case Zip => "(command -v unzip >/dev/null 2>&1 && unzip -o " + archive + " -d " + dest + ") || tar xf " + archive + " -C " + dest
    case Gzip => "gzip -dkf " + archive
  }

  function IntoParent(parent: string, more: seq<Piece>): seq<Piece> { [Text("-C")] + ([Quoted(parent)] + more) }

  lemma IntoParentLine(parent: string, more: seq<Piece>)
    requires AllWords(more)
    ensures AllWords(IntoParent(parent, more))
    ensures Line(IntoParent(parent, more)) ==
            if more == [] then "-C" + " " + ShellSingleQuote(parent) else "-C" + " " + (ShellSingleQuote(parent) + " " + Line(more))
    ensures WordsOf(IntoParent(parent, more)) == [W("-C")] + ([W(parent)] + WordsOf(more))
  {
    LineCons(Quoted(parent), more);
    LineCons(Text("-C"), [Quoted(parent)] + more);
  }

  function ArchiveAnd(archivePath: string, operands: seq<Piece>): seq<Piece> { [Quoted(archivePath)] + operands }

  lemma ArchiveAndLine(archivePath: string, operands: seq<Piece>)
    requires operands != [] && AllWords(operands)
    ensures AllWords(ArchiveAnd(archivePath, operands)) && ArchiveAnd(archivePath, operands) != []
    ensures Line(ArchiveAnd(archivePath, operands)) == ShellSingleQuote(archivePath) + " " + Line(operands)
    ensures WordsOf(ArchiveAnd(archivePath, operands)) == [W(archivePath)] + WordsOf(operands)
  {
    LineCons(Quoted(archivePath), operands);
  }

  function TarWords(flags: string, archivePath: string, operands: seq<Piece>): seq<Piece> {
    [Text("tar")] + ([Text(flags)] + ArchiveAnd(archivePath, operands))
  }

  lemma TarLine(flags: string, archivePath: string, operands: seq<Piece>)
    requires Plain(flags) && flags != "" && operands != [] && AllWords(operands)
    ensures AllWords(TarWords(flags, archivePath, operands))
    ensures Line(TarWords(flags, archivePath, operands)) ==
            "tar" + " " + (flags + " " + (ShellSingleQuote(archivePath) + " " + Line(operands)))
    ensures WordsOf(TarWords(flags, archivePath, operands)) == [W("tar")] + ([W(flags)] + ([W(archivePath)] + WordsOf(operands)))
  {
    var rest := ArchiveAnd(archivePath, operands);
    ArchiveAndLine(archivePath, operands);
    LineConsTwice(Text("tar"), Text(flags), rest);
  }

  lemma CompressText(a: string, p: string, b: string)
    ensures "tar czf " + a + " -C " + p + " " + b == "tar" + " " + ("czf" + " " + (a + " " + ("-C" + " " + (p + " " + b))))
  {
  }

  lemma CompressLine(parent: string, basename: string, archivePath: string)
    ensures var words := TarWords("czf", archivePath, IntoParent(parent, [Quoted(basename)]));
            && AllWords(words) && Line(words) == RemoteCompressCommand(parent, basename, archivePath)
            && WordsOf(words) == [W("tar")] + ([W("czf")] + ([W(archivePath)] + ([W("-C")] + ([W(parent)] + [W(basename)]))))
  {
    var last := [Quoted(basename)];
    assert Line(last) == ShellSingleQuote(basename) && WordsOf(last) == [W(basename)];
    IntoParentLine(parent, last);
    TarLine("czf", archivePath, IntoParent(parent, last));
    CompressText(ShellSingleQuote(archivePath), ShellSingleQuote(parent), ShellSingleQuote(basename));
  }

  /** tar sees the three paths as they are, whatever they contain. */
  lemma CompressReadsAsMeant(parent: string, basename: string, archivePath: string)
    ensures Tokens(RemoteCompressCommand(parent, basename, archivePath)) ==
            Some([W("tar"), W("czf"), W(archivePath), W("-C"), W(parent), W(basename)])
  {
    CompressLine(parent, basename, archivePath);
    InARow(W("tar"), W("czf"), W(archivePath), W("-C"), W(parent), W(basename), W(""));
    LineIsTheCommand(RemoteCompressCommand(parent, basename, archivePath),
      TarWords("czf", archivePath, IntoParent(parent, [Quoted(basename)])));
  }

  function TarFlags(kind: ArchiveKind): string {
    match kind
    case TarGz => "xzf"
    case TarBz2 => "xjf"
    case TarXz => "xJf"
    case _ => "xf"
  }

  function TarTokens(flags: string, archivePath: string, parent: string): seq<Token> {
    [W("tar")] + ([W(flags)] + ([W(archivePath)] + ([W("-C")] + [W(parent)])))
  }

  lemma TarText(flags: string, a: string, p: string)
    ensures "tar " + flags + " " + a + " -C " + p == "tar" + " " + (flags + " " + (a + " " + ("-C" + " " + p)))
  {
  }

  lemma TarReadsAsMeant(flags: string, archivePath: string, parent: string)
    requires Plain(flags) && flags != ""
    ensures Tokens("tar " + flags + " " + ShellSingleQuote(archivePath) + " -C " + ShellSingleQuote(parent)) ==
            Some(TarTokens(flags, archivePath, parent))
  {
    IntoParentLine(parent, []);
    assert [W(parent)] + [] == [W(parent)];
    TarLine(flags, archivePath, IntoParent(parent, []));
    TarText(flags, ShellSingleQuote(archivePath), ShellSingleQuote(parent));
    LineIsTheCommand("tar " + flags + " " + ShellSingleQuote(archivePath) + " -C " + ShellSingleQuote(parent),
      TarWords(flags, archivePath, IntoParent(parent, [])));
  }

  lemma GzipText(a: string)
    ensures "gzip -dkf " + a == "gzip" + " " + ("-dkf" + " " + a)
  {
  }

  lemma GzipReadsAsMeant(archivePath: string)
    ensures Tokens("gzip -dkf " + ShellSingleQuote(archivePath)) == Some([W("gzip")] + ([W("-dkf")] + [W(archivePath)]))
  {
    var archive := [Quoted(archivePath)];
    assert Line(archive) == ShellSingleQuote(archivePath) && WordsOf(archive) == [W(archivePath)];
    LineConsTwice(Text("gzip"), Text("-dkf"), archive);
    GzipText(ShellSingleQuote(archivePath));
    LineIsTheCommand("gzip -dkf " + ShellSingleQuote(archivePath), [Text("gzip")] + ([Text("-dkf")] + archive));
  }

  // The unzip command, read from its end: each lemma puts one part in front of the rest.

  lemma SignAndSpace(sign: string, rest: string, tokens: seq<Token>)
    requires IsSign(sign) && !Extends(sign, ' ') && Tokens(rest) == Some(tokens)
    ensures Tokens(sign + (" " + rest)) == Some([Operator(sign)] + tokens)
  {
    SpaceIsSkipped(rest);
    SignIsRead(sign, " " + rest);
  }

  lemma SpaceIsSkipped(rest: string)
    ensures Tokens(" " + rest) == Tokens(rest)
  {
    assert (" " + rest)[1..] == rest;
  }

  function UnzipTokens(archivePath: string, parent: string): seq<Token> {
    [W("unzip")] + ([W("-o")] + ([W(archivePath)] + ([W("-d")] + [W(parent)])))
  }

  function IntoDirectory(parent: string): seq<Piece> { [Text("-d")] + [Quoted(parent)] }

  lemma IntoDirectoryLine(parent: string)
    ensures AllWords(IntoDirectory(parent)) && IntoDirectory(parent) != []
    ensures Line(IntoDirectory(parent)) == "-d" + " " + ShellSingleQuote(parent)
    ensures WordsOf(IntoDirectory(parent)) == [W("-d")] + [W(parent)]
  {
    LineCons(Quoted(parent), []);
    LineCons(Text("-d"), [Quoted(parent)]);
    assert [Quoted(parent)] + [] == [Quoted(parent)] && [W(parent)] + [] == [W(parent)];
  }

  function ArchiveInto(archivePath: string, parent: string): seq<Piece> { [Quoted(archivePath)] + IntoDirectory(parent) }

  lemma ArchiveIntoLine(archivePath: string, parent: string)
    ensures AllWords(ArchiveInto(archivePath, parent)) && ArchiveInto(archivePath, parent) != []
    ensures Line(ArchiveInto(archivePath, parent)) == ShellSingleQuote(archivePath) + " " + ("-d" + " " + ShellSingleQuote(parent))
    ensures WordsOf(ArchiveInto(archivePath, parent)) == [W(archivePath)] + ([W("-d")] + [W(parent)])
  {
    IntoDirectoryLine(parent);
    LineCons(Quoted(archivePath), IntoDirectory(parent));
  }

  function UnzipWords(archivePath: string, parent: string): seq<Piece> {
    [Text("unzip")] + ([Text("-o")] + ArchiveInto(archivePath, parent))
  }

  lemma UnzipLine(archivePath: string, parent: string)
    ensures var words := UnzipWords(archivePath, parent);
            && AllWords(words) && words != [] && WordsOf(words) == UnzipTokens(archivePath, parent)
            && Line(words) == "unzip" + " " + ("-o" + " " + (ShellSingleQuote(archivePath) + " " + ("-d" + " " + ShellSingleQuote(parent))))
  {
    var rest := ArchiveInto(archivePath, parent);
    ArchiveIntoLine(archivePath, parent);
    LineConsTwice(Text("unzip"), Text("-o"), rest);
  }

  /** The unzip command and its closing parenthesis. */
  lemma UnzipIsRead(archivePath: string, parent: string, rest: string, tokens: seq<Token>)
    requires Tokens(rest) == Some(tokens)
    ensures var line := "unzip" + " " + ("-o" + " " + (ShellSingleQuote(archivePath) + " " + ("-d" + " " + ShellSingleQuote(parent))));
            Tokens(line + (")" + (" " + rest))) == Some(UnzipTokens(archivePath, parent) + ([Operator(")")] + tokens))
  {
    UnzipLine(archivePath, parent);
    SignAndSpace(")", rest, tokens);
    LineIsRead(UnzipWords(archivePath, parent), ")" + (" " + rest));
  }

  lemma OneWord(text: string, rest: string, tokens: seq<Token>)
    requires Plain(text) && text != "" && Tokens(rest) == Some(tokens)
    ensures Tokens(text + (" " + rest)) == Some([W(text)] + tokens)
  {
    SpaceIsSkipped(rest);
    WordIsRead(Text(text), " " + rest);
  }

  lemma Redirection(digits: string, sign: string, rest: string, tokens: seq<Token>)
    requires Plain(digits) && Digits(digits) && IsSign(sign) && sign[0] == '>'
    requires (rest == "" || !Extends(sign, rest[0])) && Tokens(rest) == Some(tokens)
    ensures Tokens(digits + (sign + rest)) == Some([IoNumber(digits)] + ([Operator(sign)] + tokens))
  {
    SignIsRead(sign, rest);
    TextIsRead(digits, sign + rest);
  }

  lemma DuplicationIsRead(rest: string, tokens: seq<Token>)
    requires Tokens(rest) == Some(tokens)
    ensures Tokens("2" + (">&" + ("1" + (" " + ("&&" + (" " + rest)))))) ==
            Some([IoNumber("2")] + ([Operator(">&")] + ([W("1")] + ([Operator("&&")] + tokens))))
  {
    SignAndSpace("&&", rest, tokens);
    OneWord("1", "&&" + (" " + rest), [Operator("&&")] + tokens);
    Redirection("2", ">&", "1" + (" " + ("&&" + (" " + rest))), [W("1")] + ([Operator("&&")] + tokens));
  }

  lemma TestIsRead(rest: string, tokens: seq<Token>)
    requires Tokens(rest) == Some(tokens)
    ensures Tokens("-v" + (" " + ("unzip" + (" " + (">" + ("/dev/null" + (" " + rest))))))) ==
            Some([W("-v")] + ([W("unzip")] + ([Operator(">")] + ([W("/dev/null")] + tokens))))
  {
    var device := "/dev/null" + (" " + rest);
    OneWord("/dev/null", rest, tokens);
    SignIsRead(">", device);
    OneWord("unzip", ">" + device, [Operator(">")] + ([W("/dev/null")] + tokens));
    OneWord("-v", "unzip" + (" " + (">" + device)), [W("unzip")] + ([Operator(">")] + ([W("/dev/null")] + tokens)));
  }

  lemma OpeningIsRead(rest: string, tokens: seq<Token>)
    requires Tokens(rest) == Some(tokens)
    ensures Tokens("(" + ("command" + (" " + rest))) == Some([Operator("(")] + ([W("command")] + tokens))
  {
    OneWord("command", rest, tokens);
    SignIsRead("(", "command" + (" " + rest));
  }

  /** What the shell makes of the whole fallback. */
  function ZipTokens(archivePath: string, parent: string): seq<Token> {
    [Operator("(")] + ([W("command")] + ([W("-v")] + ([W("unzip")] + ([Operator(">")] + ([W("/dev/null")] +
    ([IoNumber("2")] + ([Operator(">&")] + ([W("1")] + ([Operator("&&")] +
    (UnzipTokens(archivePath, parent) + ([Operator(")")] + ([Operator("||")] + TarTokens("xf", archivePath, parent)))))))))))))
  }

  lemma ZipParts(head: string, a: string, d: string)
    ensures head + "unzip -o " + a + " -d " + d + ") || tar xf " + a + " -C " + d ==
            head + ("unzip -o " + a + " -d " + d + (") || tar xf " + a + " -C " + d))
  {
  }

  lemma TailText(a: string, d: string)
    ensures ") || tar xf " + a + " -C " + d == ") || " + ("tar xf " + a + " -C " + d)
    ensures "tar xf " + a + " -C " + d == "tar " + "xf" + " " + a + " -C " + d
  {
    assert ") || tar xf " == ") || " + "tar xf ";
  }

  lemma UnzipText(a: string, d: string)
    ensures "unzip -o " + a + " -d " + d == "unzip" + " " + ("-o" + " " + (a + " " + ("-d" + " " + d)))
  {
  }

  lemma ZipText(a: string, d: string)
    ensures "(command -v unzip >/dev/null 2>&1 && unzip -o " + a + " -d " + d + ") || tar xf " + a + " -C " + d ==
            "(command -v unzip >/dev/null 2>&1 && " + ("unzip -o " + a + " -d " + d + (") || " + ("tar xf " + a + " -C " + d)))
  {
    var head := "(command -v unzip >/dev/null 2>&1 && ";
    assert "(command -v unzip >/dev/null 2>&1 && unzip -o " == head + "unzip -o ";
    ZipParts(head, a, d);
    TailText(a, d);
  }

  lemma InTurn(a: string, b: string, c: string, rest: string)
    ensures a + b + c + rest == a + (b + (c + rest))
  {
  }

  lemma OpeningText(rest: string)
    ensures "(command " + rest == "(" + ("command" + (" " + rest))
  {
  }

  lemma TestText(rest: string)
    ensures "-v unzip >/dev/null " + rest == "-v" + (" " + ("unzip" + (" " + (">" + ("/dev/null" + (" " + rest))))))
  {
  }

  lemma DuplicationText(rest: string)
    ensures "2>&1 && " + rest == "2" + (">&" + ("1" + (" " + ("&&" + (" " + rest)))))
  {
  }

  lemma ZipHeadText(rest: string)
    ensures "(command -v unzip >/dev/null 2>&1 && " + rest ==
            "(" + ("command" + (" " + ("-v" + (" " + ("unzip" + (" " + (">" + ("/dev/null" + (" " +
            ("2" + (">&" + ("1" + (" " + ("&&" + (" " + rest)))))))))))))))
  {
    assert "(command -v unzip >/dev/null 2>&1 && " == "(command " + "-v unzip >/dev/null " + "2>&1 && ";
    InTurn("(command ", "-v unzip >/dev/null ", "2>&1 && ", rest);
    DuplicationText(rest);
    TestText("2>&1 && " + rest);
    OpeningText("-v unzip >/dev/null " + ("2>&1 && " + rest));
  }

  lemma ClosingText(rest: string)
    ensures ") || " + rest == ")" + (" " + ("||" + (" " + rest)))
  {
  }

  lemma ZipTailIsRead(archivePath: string, parent: string)
    ensures var a, d := ShellSingleQuote(archivePath), ShellSingleQuote(parent);
            Tokens("unzip -o " + a + " -d " + d + (") || " + ("tar xf " + a + " -C " + d))) ==
            Some(UnzipTokens(archivePath, parent) + ([Operator(")")] + ([Operator("||")] + TarTokens("xf", archivePath, parent))))
  {
    var a, d := ShellSingleQuote(archivePath), ShellSingleQuote(parent);
    var tar := "tar xf " + a + " -C " + d;
    UnzipText(a, d);
    TailText(a, d);
    ClosingText(tar);
    TarReadsAsMeant("xf", archivePath, parent);
    SignAndSpace("||", tar, TarTokens("xf", archivePath, parent));
    UnzipIsRead(archivePath, parent, "||" + (" " + tar), [Operator("||")] + TarTokens("xf", archivePath, parent));
  }

  lemma ZipHeadIsRead(rest: string, tokens: seq<Token>)
    requires Tokens(rest) == Some(tokens)
    ensures Tokens("(command -v unzip >/dev/null 2>&1 && " + rest) ==
            Some([Operator("(")] + ([W("command")] + ([W("-v")] + ([W("unzip")] + ([Operator(">")] + ([W("/dev/null")] +
              ([IoNumber("2")] + ([Operator(">&")] + ([W("1")] + ([Operator("&&")] + tokens))))))))))
  {
    ZipHeadText(rest);
    var quiet := "2" + (">&" + ("1" + (" " + ("&&" + (" " + rest)))));
    var quietTokens := [IoNumber("2")] + ([Operator(">&")] + ([W("1")] + ([Operator("&&")] + tokens)));
    DuplicationIsRead(rest, tokens);
    TestIsRead(quiet, quietTokens);
    OpeningIsRead("-v" + (" " + ("unzip" + (" " + (">" + ("/dev/null" + (" " + quiet)))))),
      [W("-v")] + ([W("unzip")] + ([Operator(">")] + ([W("/dev/null")] + quietTokens))));
  }

  /** Every extraction reads as meant, the operators of the unzip fallback included. */
  lemma ExtractReadsAsMeant(kind: ArchiveKind, archivePath: string, parent: string)
    ensures Tokens(RemoteExtractCommand(kind, archivePath, parent)) == Some(
              match kind
              case Zip => ZipTokens(archivePath, parent)
              case Gzip => [W("gzip")] + ([W("-dkf")] + [W(archivePath)])
              case TarGz => TarTokens("xzf", archivePath, parent)
              case TarBz2 => TarTokens("xjf", archivePath, parent)
              case TarXz => TarTokens("xJf", archivePath, parent)
              case Tar => TarTokens("xf", archivePath, parent))
  {
    var archive, dest := ShellSingleQuote(archivePath), ShellSingleQuote(parent);
    match kind {
      case Zip => ZipReadsAsMeant(archivePath, parent);
      case Gzip => GzipReadsAsMeant(archivePath);
      case _ =>
        TarReadsAsMeant(TarFlags(kind), archivePath, parent);
        FlagTexts(archive, dest);
    }
  }

  lemma FlagTexts(a: string, d: string)
    ensures "tar xzf " + a + " -C " + d == "tar " + "xzf" + " " + a + " -C " + d
    ensures "tar xjf " + a + " -C " + d == "tar " + "xjf" + " " + a + " -C " + d
    ensures "tar xJf " + a + " -C " + d == "tar " + "xJf" + " " + a + " -C " + d
    ensures "tar xf " + a + " -C " + d == "tar " + "xf" + " " + a + " -C " + d
  {
  }

  lemma ZipReadsAsMeant(archivePath: string, parent: string)
    ensures Tokens(RemoteExtractCommand(Zip, archivePath, parent)) == Some(ZipTokens(archivePath, parent))
  {
    var a, d := ShellSingleQuote(archivePath), ShellSingleQuote(parent);
    ZipTailIsRead(archivePath, parent);
    ZipText(a, d);
    ZipHeadIsRead("unzip -o " + a + " -d " + d + (") || " + ("tar xf " + a + " -C " + d)),
      UnzipTokens(archivePath, parent) + ([Operator(")")] + ([Operator("||")] + TarTokens("xf", archivePath, parent))));
  }
}
