/** The command that links the CLI into the search path on macOS (core/src/path_install.rs): a path
    quoted for the shell, inside an AppleScript string. */
module PathInstall {
  import opened Text

  // ---------- the program ----------

  /** Rust's `replace` of one character. */
  function Replace(s: string, c: char, by_: string): string {
    if s == "" then "" else (if s[0] == c then by_ else [s[0]]) + Replace(s[1..], c, by_)
  }

  const QUOTE := "'"
  const SYMLINK_PATH := "/usr/local/bin/yole"
  const OPENING := "do shell script \""
  const CLOSING := " with administrator privileges"

  function ShellEscaped(s: string): string {
    Replace(s, '\'', "'\\''")
  }

  function ScriptEscaped(s: string): string {
    Replace(Replace(s, '\\', "\\\\"), '"', "\\\"")
  }

  /** `shell_quote_for_osascript`. */
  function ShellQuoteForOsascript(s: string): string {
    QUOTE + ScriptEscaped(ShellEscaped(s)) + QUOTE
  }

  const PROGRAM := "/bin/ln"
  const FLAG := "-sf"

  /** The command's text: what comes before the two quoted paths, and the paths. */
  function CommandText(head: string, path: string, target: string): string {
    head + ShellQuoteForOsascript(path) + " " + ShellQuoteForOsascript(target)
  }

  function InstallCommand(path: string): string {
    CommandText(PROGRAM + " " + FLAG + " ", path, SYMLINK_PATH)
  }

  /** `run_with_admin_privileges`. */
  function AdminScript(command: string): string {
    OPENING + OuterEscaped(command) + "\"" + CLOSING
  }

  function OuterEscaped(command: string): string {
    Replace(command, '"', "\\\"")
  }

  // ---------- its readers ----------

  /** AppleScript reading a string after the opening quote: its value, and what follows the closing
      quote. */
  function ReadLiteral(s: string): Option<(string, string)> {
    if s == "" then None
    else if s[0] == '"' then Some(("", s[1..]))
    else if s[0] != '\\' then Prepended([s[0]], ReadLiteral(s[1..]))
    else if |s| < 2 then None
    else if s[1] == '\\' || s[1] == '"' then Prepended([s[1]], ReadLiteral(s[2..]))
    else if s[1] == 'n' then Prepended("\n", ReadLiteral(s[2..]))
    else if s[1] == 'r' then Prepended("\r", ReadLiteral(s[2..]))
    else if s[1] == 't' then Prepended("\t", ReadLiteral(s[2..]))
    else None
  }

  function Prepended(front: string, r: Option<(string, string)>): Option<(string, string)> {
    if r.None? then None else Some((front + r.value.0, r.value.1))
  }

  /** The shell command of a script that is one `do shell script` with administrator privileges. */
  function CommandOf(script: string): Option<string> {
    if OPENING <= script then
      var r := ReadLiteral(script[|OPENING|..]);
      if r.Some? && r.value.1 == CLOSING then Some(r.value.0) else None
    else None
  }

  /** Characters that mean something to the shell outside quotes (POSIX.1-2017, Shell Command Language,
      section 2.2); none of them is handled by `Words`. */
  predicate Special(c: char) {
    c in {'|', '&', ';', '<', '>', '(', ')', '$', '`', '"', '\n', '*', '?', '[', '#', '~', '=', '%'}
  }

  function Sofar(word: Option<string>): string {
    if word.Some? then word.value else ""
  }

  /** The words of a simple command under quoting by backslash and apostrophes (sections 2.2.1 and
      2.2.2). `word` is the word being read; None means a quote is left open or something else is
      special. */
  function Split(s: string, word: Option<string>, quoted: bool): Option<seq<string>> {
    if s == "" then
      if quoted then None else Some(if word.Some? then [word.value] else [])
    else if quoted then
      if s[0] == '\'' then Split(s[1..], word, false) else Split(s[1..], Some(Sofar(word) + [s[0]]), true)
    else if s[0] == ' ' || s[0] == '\t' then
      var rest := Split(s[1..], None, false);
      if rest.Some? && word.Some? then Some([word.value] + rest.value) else rest
    else if s[0] == '\'' then Split(s[1..], Some(Sofar(word)), true)
    else if s[0] == '\\' then
      if |s| < 2 || s[1] == '\n' then None else Split(s[2..], Some(Sofar(word) + [s[1]]), false)
    else if Special(s[0]) then None
    else Split(s[1..], Some(Sofar(word) + [s[0]]), false)
  }

  function Words(command: string): Option<seq<string>> {
    Split(command, None, false)
  }

  // ---------- each layer undone ----------

  lemma {:induction false} ReplaceConcat(a: string, b: string, c: char, by_: string)
    ensures Replace(a + b, c, by_) == Replace(a, c, by_) + Replace(b, c, by_)
  {
    if a == "" {
      assert a + b == b;
    } else {
      assert (a + b)[1..] == a[1..] + b;
      ReplaceConcat(a[1..], b, c, by_);
    }
  }

  lemma {:induction false} ReplaceAbsent(s: string, c: char, by_: string)
    requires c !in s
    ensures Replace(s, c, by_) == s
  {
    if s != "" { ReplaceAbsent(s[1..], c, by_); }
  }

  lemma {:induction false} ReplaceKeepsOut(s: string, c: char, by_: string, d: char)
    requires d !in s && d !in by_
    ensures d !in Replace(s, c, by_)
  {
    if s != "" { ReplaceKeepsOut(s[1..], c, by_, d); }
  }

  lemma ReplaceOne(x: char, c: char, by_: string)
    ensures Replace([x], c, by_) == if x == c then by_ else [x]
  {
    assert [x][1..] == "";
    assert Replace("", c, by_) == "";
  }

  function ScriptEscapedChar(c: char): string {
    if c == '\\' then "\\\\" else if c == '"' then "\\\"" else [c]
  }

  lemma ScriptEscapedConcat(a: string, b: string)
    ensures ScriptEscaped(a + b) == ScriptEscaped(a) + ScriptEscaped(b)
  {
    ReplaceConcat(a, b, '\\', "\\\\");
    ReplaceConcat(Replace(a, '\\', "\\\\"), Replace(b, '\\', "\\\\"), '"', "\\\"");
  }

  lemma ScriptEscapedOne(c: char)
    ensures ScriptEscaped([c]) == ScriptEscapedChar(c)
  {
    ReplaceOne(c, '\\', "\\\\");
    ReplaceOne(c, '"', "\\\"");
    hide Replace;
    if c == '\\' { ReplaceAbsent("\\\\", '"', "\\\""); }
  }

  lemma PrependedTwice(a: string, b: string, r: Option<(string, string)>)
    ensures Prepended(a, Prepended(b, r)) == Prepended(a + b, r)
  {
    if r.Some? { assert a + (b + r.value.0) == (a + b) + r.value.0; }
  }

  /** The string reader gives back what was escaped. */
  lemma {:induction false} LiteralGivesBack(s: string, rest: string)
    ensures ReadLiteral(ScriptEscaped(s) + rest) == Prepended(s, ReadLiteral(rest))
  {
    if s == "" {
      assert ScriptEscaped(s) + rest == rest;
      var r := ReadLiteral(rest);
      if r.Some? { assert "" + r.value.0 == r.value.0; }
    } else {
      assert s == [s[0]] + s[1..];
      ScriptEscapedConcat([s[0]], s[1..]);
      ScriptEscapedOne(s[0]);
      LiteralGivesBack(s[1..], rest);
      var tail := ScriptEscaped(s[1..]) + rest;
      var whole := ScriptEscaped(s) + rest;
      hide ScriptEscaped, Prepended;
      PrependedTwice([s[0]], s[1..], ReadLiteral(rest));
      assert whole == ScriptEscapedChar(s[0]) + tail;
      assert whole[|ScriptEscapedChar(s[0])|..] == tail;
      assert ReadLiteral(whole) == Prepended([s[0]], ReadLiteral(tail));
    }
  }

  /** Closing, escaping an apostrophe and reopening adds the apostrophe. */
  lemma ApostropheInside(word: string, tail: string)
    ensures Split("'\\''" + tail, Some(word), true) == Split(tail, Some(word + "'"), true)
  {
    var closed, reopened := "\\''" + tail, "'" + tail;
    assert ("'\\''" + tail)[1..] == closed && closed[2..] == reopened && reopened[1..] == tail;
    assert closed[1] == '\'' && [closed[1]] == "'";
    assert Split("'\\''" + tail, Some(word), true) == Split(closed, Some(word), false);
    assert Split(closed, Some(word), false) == Split(reopened, Some(word + "'"), false);
  }

  /** Inside apostrophes the shell gives back what was escaped. */
  lemma {:induction false} ShellGivesBack(s: string, word: string, rest: string)
    ensures Split(ShellEscaped(s) + QUOTE + rest, Some(word), true) == Split(rest, Some(word + s), false)
  {
    var whole := ShellEscaped(s) + QUOTE + rest;
    if s == "" {
      assert whole == QUOTE + rest && whole[1..] == rest && word + s == word;
    } else {
      var tail := ShellEscaped(s[1..]) + QUOTE + rest;
      ShellGivesBack(s[1..], word + [s[0]], rest);
      assert word + [s[0]] + s[1..] == word + s;
      if s[0] == '\'' {
        assert [s[0]] == "'";
        ApostropheInside(word, tail);
        assert whole == "'\\''" + tail;
      } else {
        assert whole == [s[0]] + tail && whole[1..] == tail;
      }
    }
  }

  /** A quoted string, read by the script's string reader and split by the shell, is one word, the
      string itself, whatever it contains. */
  lemma QuotingRoundTrips(s: string)
    ensures var r := ReadLiteral(ShellQuoteForOsascript(s) + "\"");
            r.Some? && r.value.1 == "" && Words(r.value.0) == Some([s])
  {
    var shell := Quoted(s);
    QuotedIsEscaped(s);
    LiteralGivesBack(shell, "\"");
    assert shell + "" == shell;
    ShellGivesBack(s, "", "");
    assert "" + s == s && shell[1..] == ShellEscaped(s) + QUOTE + "";
  }

  /** The shell's view of a quoted string: its apostrophes need no escaping in the script. */
  function Quoted(s: string): string {
    QUOTE + ShellEscaped(s) + QUOTE
  }

  lemma QuotedIsEscaped(s: string)
    ensures ShellQuoteForOsascript(s) == ScriptEscaped(Quoted(s))
  {
    ScriptEscapedOne('\'');
    ScriptEscapedConcat(QUOTE + ShellEscaped(s), QUOTE);
    ScriptEscapedConcat(QUOTE, ShellEscaped(s));
  }

  // ---------- the whole command ----------

  function ShellText(head: string, path: string, target: string): string {
    head + Quoted(path) + " " + Quoted(target)
  }

  predicate PlainText(s: string) {
    '\\' !in s && '"' !in s
  }

  lemma PlainUnescaped(s: string)
    requires PlainText(s)
    ensures ScriptEscaped(s) == s
  {
    ReplaceAbsent(s, '\\', "\\\\");
    ReplaceAbsent(s, '"', "\\\"");
  }

  lemma CommandIsEscaped(head: string, path: string, target: string)
    requires PlainText(head)
    ensures CommandText(head, path, target) == ScriptEscaped(ShellText(head, path, target))
  {
    QuotedIsEscaped(path);
    QuotedIsEscaped(target);
    PlainUnescaped(head);
    PlainUnescaped(" ");
    hide ScriptEscaped, Quoted, ShellQuoteForOsascript;
    ScriptEscapedConcat(head + Quoted(path) + " ", Quoted(target));
    ScriptEscapedConcat(head + Quoted(path), " ");
    ScriptEscapedConcat(head, Quoted(path));
  }

  predicate PlainChars(s: string) {
    forall i | 0 <= i < |s| :: s[i] != ' ' && s[i] != '\t' && s[i] != '\'' && s[i] != '\\' && !Special(s[i])
  }

  predicate PlainWord(s: string) {
    s != "" && PlainChars(s)
  }

  lemma {:induction false} PlainWordReads(head: string, word: string, rest: string)
    requires PlainChars(head)
    ensures Split(head + rest, Some(word), false) == Split(rest, Some(word + head), false)
  {
    if head == "" {
      assert head + rest == rest && word + head == word;
    } else {
      var whole := head + rest;
      PlainWordReads(head[1..], word + [head[0]], rest);
      assert whole[1..] == head[1..] + rest && word + [head[0]] + head[1..] == word + head;
    }
  }

  /** A plain word and the blank after it. */
  lemma PlainWordSplits(head: string, rest: string)
    requires PlainWord(head)
    ensures var r := Words(rest); Words(head + " " + rest) == if r.Some? then Some([head] + r.value) else None
  {
    var whole, after := head + " " + rest, " " + rest;
    assert whole[1..] == head[1..] + after && after[1..] == rest;
    PlainWordReads(head[1..], [head[0]], after);
    assert [head[0]] + head[1..] == head;
    assert whole[0] == head[0] && Sofar(None) + [head[0]] == [head[0]];
    assert Split(whole, None, false) == Split(whole[1..], Some([head[0]]), false);
  }

  /** A quoted string and the blank after it, or the end. */
  lemma QuotedSplits(s: string, rest: string)
    ensures var r := Words(rest); Words(Quoted(s) + " " + rest) == if r.Some? then Some([s] + r.value) else None
    ensures Words(Quoted(s)) == Some([s])
  {
    var after := " " + rest;
    assert (Quoted(s) + " " + rest)[1..] == ShellEscaped(s) + QUOTE + after;
    assert Quoted(s)[1..] == ShellEscaped(s) + QUOTE + "";
    ShellGivesBack(s, "", after);
    ShellGivesBack(s, "", "");
    assert "" + s == s && after[1..] == rest;
  }

  lemma ShellTextSplits(program: string, flag: string, path: string, target: string)
    requires PlainWord(program) && PlainWord(flag)
    ensures Words(ShellText(program + " " + flag + " ", path, target)) == Some([program, flag, path, target])
  {
    var paths := Quoted(path) + " " + Quoted(target);
    var flagged := flag + " " + paths;
    hide Quoted, Words, PlainWord;
    QuotedSplits(path, Quoted(target));
    QuotedSplits(target, "");
    PlainWordSplits(flag, paths);
    PlainWordSplits(program, flagged);
    assert ShellText(program + " " + flag + " ", path, target) == program + " " + flagged;
    assert [program] + ([flag] + ([path] + [target])) == [program, flag, path, target];
  }

  lemma NoQuoteInQuoted(s: string)
    requires '"' !in s
    ensures '"' !in ShellQuoteForOsascript(s)
  {
    ReplaceKeepsOut(s, '\'', "'\\''", '"');
    ReplaceKeepsOut(ShellEscaped(s), '\\', "\\\\", '"');
    ReplaceAbsent(Replace(ShellEscaped(s), '\\', "\\\\"), '"', "\\\"");
  }

  lemma ScriptRunsCommand(head: string, path: string, target: string)
    requires PlainText(head) && '"' !in path && '"' !in target
    ensures CommandOf(AdminScript(CommandText(head, path, target))) == Some(ShellText(head, path, target))
  {
    var text, command, rest := ShellText(head, path, target), CommandText(head, path, target), "\"" + CLOSING;
    NoQuoteInQuoted(path);
    NoQuoteInQuoted(target);
    assert '"' !in command;
    ReplaceAbsent(command, '"', "\\\"");
    assert OuterEscaped(command) == command;
    CommandIsEscaped(head, path, target);
    LiteralGivesBack(text, rest);
    ScriptHolds(text, command, rest);
  }

  /** What the script's reader makes of a literal that ends where the script closes it. */
  lemma ScriptHolds(text: string, body: string, rest: string)
    requires rest == "\"" + CLOSING && ReadLiteral(body + rest) == Prepended(text, ReadLiteral(rest))
    ensures CommandOf(OPENING + body + "\"" + CLOSING) == Some(text)
  {
    assert rest[1..] == CLOSING;
    assert ReadLiteral(rest) == Some(("", CLOSING));
    assert text + "" == text;
    assert OPENING + body + "\"" + CLOSING == OPENING + (body + rest);
    assert (OPENING + (body + rest))[|OPENING|..] == body + rest;
  }

  /** And of one that ends too soon. */
  lemma ScriptEndsEarly(value: string, body: string, e: string)
    requires var after := e + "\"" + CLOSING; ReadLiteral(body + after) == Some((value, after))
    ensures CommandOf(OPENING + (body + e) + "\"" + CLOSING) == None
  {
    var after := e + "\"" + CLOSING;
    assert OPENING + (body + e) + "\"" + CLOSING == OPENING + (body + after);
    assert (OPENING + (body + after))[|OPENING|..] == body + after;
    assert |after| > |CLOSING|;
  }

  function FirstQuote(s: string): (k: nat)
    requires '"' in s
    ensures k < |s| && s[k] == '"' && '"' !in s[..k]
  {
    if s[0] == '"' then 0 else 1 + FirstQuote(s[1..])
  }

  lemma QuotedAround(a: string, b: string)
    ensures Quoted(a + "\"" + b) == QUOTE + ShellEscaped(a) + "\"" + (ShellEscaped(b) + QUOTE)
  {
    ReplaceConcat(a + "\"", b, '\'', "'\\''");
    ReplaceConcat(a, "\"", '\'', "'\\''");
    ReplaceOne('"', '\'', "'\\''");
  }

  lemma NoQuoteEscaped(front: string)
    requires '"' !in front
    ensures '"' !in ScriptEscaped(front)
  {
    ReplaceKeepsOut(front, '\\', "\\\\", '"');
    ReplaceAbsent(Replace(front, '\\', "\\\\"), '"', "\\\"");
  }

  lemma OuterEscapesAgain(front: string, e: string)
    requires '"' !in front
    ensures OuterEscaped(front + "\\\"" + e) == front + "\\\\\"" + OuterEscaped(e)
  {
    ReplaceConcat(front + "\\\"", e, '"', "\\\"");
    ReplaceConcat(front, "\\" + "\"", '"', "\\\"");
    ReplaceConcat("\\", "\"", '"', "\\\"");
    ReplaceAbsent(front, '"', "\\\"");
    ReplaceOne('\\', '"', "\\\"");
    ReplaceOne('"', '"', "\\\"");
    hide Replace;
    assert "\\" + "\"" == "\\\"" && "\\" + "\\\"" == "\\\\\"";
  }

  /** A text up to its first double quote, escaped twice, ends the script's string there. */
  lemma TwiceEscapedEnds(front: string, end: string)
    requires '"' !in front
    ensures OuterEscaped(ScriptEscaped(front + "\"" + end)) ==
            ScriptEscaped(front) + "\\\\\"" + OuterEscaped(ScriptEscaped(end))
    ensures forall after :: ReadLiteral(ScriptEscaped(front) + ("\\\\\"" + after)) == Some((front + "\\", after))
  {
    ScriptEscapedConcat(front + "\"", end);
    ScriptEscapedConcat(front, "\"");
    ScriptEscapedOne('"');
    NoQuoteEscaped(front);
    hide ScriptEscaped, OuterEscaped;
    OuterEscapesAgain(ScriptEscaped(front), ScriptEscaped(end));
    forall after ensures ReadLiteral(ScriptEscaped(front) + ("\\\\\"" + after)) == Some((front + "\\", after)) {
      var closing := "\"" + after;
      LiteralGivesBack(front, "\\\\\"" + after);
      assert closing[1..] == after && ("\\\\\"" + after)[2..] == closing;
      assert ReadLiteral(closing) == Some(("", after));
      assert ReadLiteral("\\\\\"" + after) == Some(("\\", after)) by { assert "\\" + "" == "\\"; }
    }
  }

  /** A double quote is escaped by both functions, so the first one in the path ends the string. */
  lemma QuoteEndsLiteral(head: string, path: string, target: string)
    requires PlainText(head) && '"' in path
    ensures CommandOf(AdminScript(CommandText(head, path, target))) == None
  {
    var k := FirstQuote(path);
    var a, b := path[..k], path[k + 1..];
    assert path == a + "\"" + b;
    var front, end := head + QUOTE + ShellEscaped(a), ShellEscaped(b) + QUOTE + " " + Quoted(target);
    QuotedAround(a, b);
    ReplaceKeepsOut(a, '\'', "'\\''", '"');
    assert '"' !in front;
    CommandIsEscaped(head, path, target);
    assert ShellText(head, path, target) == front + "\"" + end by { hide ShellEscaped; }
    SplitAtQuoteEnds(CommandText(head, path, target), front, end);
  }

  lemma SplitAtQuoteEnds(command: string, front: string, end: string)
    requires '"' !in front && command == ScriptEscaped(front + "\"" + end)
    ensures CommandOf(AdminScript(command)) == None
  {
    TwiceEscapedEnds(front, end);
    hide *;
    LiteralCutShort(command, front, ScriptEscaped(front), OuterEscaped(ScriptEscaped(end)));
  }

  lemma LiteralCutShort(command: string, front: string, escaped: string, e: string)
    requires OuterEscaped(command) == escaped + "\\\\\"" + e
    requires forall after :: ReadLiteral(escaped + ("\\\\\"" + after)) == Some((front + "\\", after))
    ensures CommandOf(AdminScript(command)) == None
  {
    var body, after := escaped + "\\\\\"", e + "\"" + CLOSING;
    hide ReadLiteral, OuterEscaped, CommandOf;
    assert ReadLiteral(escaped + ("\\\\\"" + after)) == Some((front + "\\", after));
    Regrouped(escaped, "\\\\\"", after);
    ScriptEndsEarly(front + "\\", body, e);
  }

  lemma Regrouped(a: string, b: string, c: string)
    ensures a + (b + c) == (a + b) + c
  {}

  /** The script runs `ln` on exactly the path exactly when the path has no double quote. */
  lemma InstallsExactly(path: string)
    ensures (var command := CommandOf(AdminScript(InstallCommand(path)));
             command.Some? && Words(command.value) == Some([PROGRAM, FLAG, path, SYMLINK_PATH])) <==>
            '"' !in path
  {
    var head := PROGRAM + " " + FLAG + " ";
    hide CommandText, CommandOf, Words, ShellText;
    if '"' in path {
      QuoteEndsLiteral(head, path, SYMLINK_PATH);
    } else {
      ScriptRunsCommand(head, path, SYMLINK_PATH);
      ShellTextSplits(PROGRAM, FLAG, path, SYMLINK_PATH);
    }
  }
}
