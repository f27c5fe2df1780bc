/** Shell command lines: quoting, and the tokens and command a shell reads back. */
module Shell {
  import opened Wrappers

  // ---------- Printing ----------

  predicate SafeChar(c: char) {
    'a' <= c <= 'z' || 'A' <= c <= 'Z' || '0' <= c <= '9' ||
    c in {'_', '@', '%', '+', '=', ':', ',', '.', '/', '-'}
  }

  predicate Safe(s: string) {
    s != "" && forall i :: 0 <= i < |s| ==> SafeChar(s[i])
  }

  // Every single quote becomes: close, escaped quote, reopen.
  function Requoted(s: string): string {
    if s == "" then "" else (if s[0] == '\'' then "'\\''" else [s[0]]) + Requoted(s[1..])
  }

  function Escape(s: string): string {
    if Safe(s) then s else "'" + Requoted(s) + "'"
  }

  datatype CommandSpec = CommandSpec(program: string, args: seq<string>, stdin: Option<string>)

  function Words(args: seq<string>): string {
    if args == [] then "" else Words(args[..|args| - 1]) + " " + Escape(args[|args| - 1])
  }

  function Rendered(c: CommandSpec): string {
    Escape(c.program) + Words(c.args) + match c.stdin case None => "" case Some(path) => " < " + Escape(path)
  }

  lemma Grouped(a: string, b: string, c: string, d: string)
    ensures a + (b + c + d) == a + b + c + d
    ensures a + b + c + d == a + (b + c + d)
  {
  }

  lemma RenderStep(program: string, args: seq<string>, i: nat)
    requires i < |args|
    ensures program + Words(args[..i + 1]) == program + Words(args[..i]) + " " + Escape(args[i])
  {
    assert args[..i + 1][..i] == args[..i];
    Grouped(program, Words(args[..i]), " ", Escape(args[i]));
  }

  method RenderShell(c: CommandSpec) returns (command: string)
    ensures command == Rendered(c)
  {
    command := Escape(c.program);
    for i := 0 to |c.args|
      invariant command == Escape(c.program) + Words(c.args[..i])
    {
      RenderStep(Escape(c.program), c.args, i);
      command := command + " ";
      command := command + Escape(c.args[i]);
    }
    assert c.args[..|c.args|] == c.args;
    match c.stdin
    case None => assert Rendered(c) == command;
    case Some(path) => command := command + (" < " + Escape(path));
  }

  // ---------- Tokens ----------

  // Whether a word was quoted, and how many characters precede the first quoting.
  datatype Quoting = Bare | From(at: nat)

  datatype Token = Word(text: string, quoting: Quoting) | Less

  // The word under construction.
  datatype Partial = Outside | Inside(text: string, quoting: Quoting) | Quoted(text: string, at: nat)

  const NUL := '\0'

  // Characters with a meaning of their own outside quotes that this reader does not give.
  const DECLINED: set<char> := {'|', '&', ';', '>', '(', ')', '$', '`', '"', '\n', '*', '?', '[', ']', '#', '~',
    '{', '}', '!', '^'}

  function TextOf(w: Partial): string {
    if w.Outside? then "" else w.text
  }

  // Where quoting starts if it starts now at the latest.
  function QuotedAt(w: Partial): nat {
    match w
    case Outside => 0
    case Inside(text, Bare) => |text|
    case Inside(_, From(at)) => at
    case Quoted(_, at) => at
  }

  function Ended(w: Partial): seq<Token> {
    match w
    case Inside(text, quoting) => [Word(text, quoting)]
    case _ => []
  }

  function Before(ts: seq<Token>, rest: Option<seq<Token>>): Option<seq<Token>> {
    match rest case None => None case Some(us) => Some(ts + us)
  }

  predicate Digits(w: Partial) {
    w.Inside? && w.quoting.Bare? && forall i :: 0 <= i < |w.text| ==> '0' <= w.text[i] <= '9'
  }

  // Blanks separate words, backslash and single quotes quote, '<' redirects; nothing else is read.
  function Scan(s: string, w: Partial): Option<seq<Token>>
    decreases |s|
  {
    if s == "" then (if w.Quoted? then None else Some(Ended(w)))
    else if s[0] == NUL then None
    else if w.Quoted? then
      Scan(s[1..], if s[0] == '\'' then Inside(w.text, From(w.at)) else Quoted(w.text + [s[0]], w.at))
    else if s[0] == '\'' then Scan(s[1..], Quoted(TextOf(w), QuotedAt(w)))
    else if s[0] == '\\' then
      if |s| == 1 || s[1] == NUL then None
      else if s[1] == '\n' then Scan(s[2..], w)
      else Scan(s[2..], Inside(TextOf(w) + [s[1]], From(QuotedAt(w))))
    else if s[0] == ' ' || s[0] == '\t' then Before(Ended(w), Scan(s[1..], Outside))
    else if s[0] == '<' then
      if Digits(w) || (|s| > 1 && s[1] in {'<', '&', '>'}) then None
      else Before(Ended(w) + [Less], Scan(s[1..], Outside))
    else if s[0] in DECLINED then None
    else Scan(s[1..], Inside(TextOf(w) + [s[0]], if w.Inside? then w.quoting else Bare))
  }

  function Tokenize(s: string): Option<seq<Token>> {
    Scan(s, Outside)
  }

  // ---------- Reading back one escaped string ----------

  predicate NulFree(s: string) {
    forall i :: 0 <= i < |s| ==> s[i] != NUL
  }

  predicate Plain(c: char) {
    c != NUL && c != '\'' && c != '\\' && c != ' ' && c != '\t' && c != '<' && c !in DECLINED
  }

  lemma SafeIsPlain(c: char)
    requires SafeChar(c)
    ensures Plain(c)
  {
  }

  // One character at a time.
  lemma PlainStep(c: char, rest: string, w: Partial)
    requires Plain(c) && !w.Quoted?
    ensures Scan([c] + rest, w) == Scan(rest, Inside(TextOf(w) + [c], if w.Inside? then w.quoting else Bare))
  {
    assert ([c] + rest)[0] == c && ([c] + rest)[1..] == rest;
  }

  lemma OpenStep(rest: string, w: Partial)
    requires !w.Quoted?
    ensures Scan("'" + rest, w) == Scan(rest, Quoted(TextOf(w), QuotedAt(w)))
  {
    assert ("'" + rest)[0] == '\'' && ("'" + rest)[1..] == rest;
  }

  lemma QuotedStep(c: char, rest: string, text: string, at: nat)
    requires c != NUL
    ensures Scan([c] + rest, Quoted(text, at)) ==
      Scan(rest, if c == '\'' then Inside(text, From(at)) else Quoted(text + [c], at))
  {
    assert ([c] + rest)[0] == c && ([c] + rest)[1..] == rest;
  }

  lemma BackslashStep(rest: string, w: Partial)
    requires !w.Quoted?
    ensures Scan("\\'" + rest, w) == Scan(rest, Inside(TextOf(w) + "'", From(QuotedAt(w))))
  {
    var s := "\\'" + rest;
    assert s[0] == '\\' && s[1] == '\'' && s[2..] == rest;
  }

  lemma HeadMoved(text: string, s: string)
    requires s != ""
    ensures text + [s[0]] + s[1..] == text + s
  {
  }

  lemma {:induction false} ScanSafe(s: string, rest: string, text: string)
    requires forall i :: 0 <= i < |s| ==> SafeChar(s[i])
    ensures Scan(s + rest, Inside(text, Bare)) == Scan(rest, Inside(text + s, Bare))
  {
    if s == "" {
      assert s + rest == rest && text + s == text;
    } else {
      assert s + rest == [s[0]] + (s[1..] + rest);
      SafeIsPlain(s[0]);
      PlainStep(s[0], s[1..] + rest, Inside(text, Bare));
      assert text + [s[0]] + s[1..] == text + s;
      ScanSafe(s[1..], rest, text + [s[0]]);
    }
  }

  // Inside quotes an escaped quote closes, adds the quote, and reopens.
  lemma ScanQuote(rest: string, text: string, at: nat)
    ensures Scan("'\\''" + rest, Quoted(text, at)) == Scan(rest, Quoted(text + "'", at))
  {
    assert "'\\''" + rest == ['\''] + ("\\'" + ("'" + rest));
    QuotedStep('\'', "\\'" + ("'" + rest), text, at);
    BackslashStep("'" + rest, Inside(text, From(at)));
    OpenStep(rest, Inside(text + "'", From(at)));
  }

  lemma {:induction false} ScanRequoted(s: string, rest: string, text: string, at: nat)
    requires NulFree(s)
    ensures Scan(Requoted(s) + "'" + rest, Quoted(text, at)) == Scan(rest, Inside(text + s, From(at)))
  {
    if s == "" {
      assert Requoted(s) + "'" + rest == ['\''] + rest && text + s == text;
      QuotedStep('\'', rest, text, at);
    } else {
      var more := Requoted(s[1..]) + "'" + rest;
      var head := if s[0] == '\'' then "'\\''" else [s[0]];
      Grouped(head, Requoted(s[1..]), "'", rest);
      HeadMoved(text, s);
      ScanRequoted(s[1..], rest, text + [s[0]], at);
      if s[0] == '\'' { ScanQuote(more, text, at); } else { QuotedStep(s[0], more, text, at); }
    }
  }

  function QuotingOf(s: string): Quoting {
    if Safe(s) then Bare else From(0)
  }

  /** An escaped string is read back as one word with exactly its text, whatever follows. */
  lemma ScanEscape(s: string, rest: string)
    requires NulFree(s)
    ensures Scan(Escape(s) + rest, Outside) == Scan(rest, Inside(s, QuotingOf(s)))
  {
    if Safe(s) {
      assert s + rest == [s[0]] + (s[1..] + rest) && [s[0]] + s[1..] == s && "" + [s[0]] == [s[0]];
      SafeIsPlain(s[0]);
      PlainStep(s[0], s[1..] + rest, Outside);
      ScanSafe(s[1..], rest, [s[0]]);
    } else {
      var more := Requoted(s) + "'" + rest;
      assert Escape(s) + rest == "'" + more && "" + s == s;
      OpenStep(more, Outside);
      ScanRequoted(s, rest, "", 0);
    }
  }

  // ---------- Reading back the whole line ----------

  function WordOf(s: string): Token {
    Word(s, QuotingOf(s))
  }

  function WordsOf(args: seq<string>): (ts: seq<Token>)
    ensures |ts| == |args| && forall i :: 0 <= i < |args| ==> ts[i] == WordOf(args[i])
  {
    if args == [] then [] else WordsOf(args[..|args| - 1]) + [WordOf(args[|args| - 1])]
  }

  function StdinTokens(stdin: Option<string>): seq<Token> {
    match stdin case None => [] case Some(path) => [Less, WordOf(path)]
  }

  function TokensOf(c: CommandSpec): seq<Token> {
    [WordOf(c.program)] + WordsOf(c.args) + StdinTokens(c.stdin)
  }

  predicate AllNulFree(c: CommandSpec) {
    && NulFree(c.program)
    && (forall i :: 0 <= i < |c.args| ==> NulFree(c.args[i]))
    && (c.stdin.Some? ==> NulFree(c.stdin.value))
  }

  lemma ScanSpace(rest: string, text: string, quoting: Quoting)
    ensures Scan(" " + rest, Inside(text, quoting)) == Before([Word(text, quoting)], Scan(rest, Outside))
  {
    assert (" " + rest)[1..] == rest;
  }

  lemma Redirection(word: string)
    ensures " < " + word == " " + ("<" + (" " + word))
  {
  }

  lemma ScanLess(word: string)
    ensures Scan("<" + (" " + word), Outside) == Before([Less], Scan(word, Outside))
  {
    var tail := " " + word;
    assert ("<" + tail)[0] == '<' && ("<" + tail)[1] == ' ' && ("<" + tail)[1..] == tail;
    assert tail[0] == ' ' && tail[1..] == word;
    assert Ended(Outside) + [Less] == [Less];
    if Scan(word, Outside).Some? { assert [] + Scan(word, Outside).value == Scan(word, Outside).value; }
  }

  lemma ScanStdin(stdin: Option<string>, text: string, quoting: Quoting)
    requires stdin.Some? ==> NulFree(stdin.value)
    ensures Scan(match stdin case None => "" case Some(path) => " < " + Escape(path), Inside(text, quoting))
      == Some([Word(text, quoting)] + StdinTokens(stdin))
  {
    match stdin
    case None => assert [Word(text, quoting)] + [] == [Word(text, quoting)];
    case Some(path) =>
      Redirection(Escape(path));
      ScanSpace("<" + (" " + Escape(path)), text, quoting);
      ScanLess(Escape(path));
      assert Escape(path) + "" == Escape(path);
      ScanEscape(path, "");
      assert [Less] + [WordOf(path)] == StdinTokens(stdin);
  }

  // A word in progress, then one more argument.
  lemma ScanArgument(arg: string, rest: string, last: Token, ts: seq<Token>)
    requires NulFree(arg) && last.Word? && Scan(rest, Inside(arg, QuotingOf(arg))) == Some([WordOf(arg)] + ts)
    ensures Scan(" " + (Escape(arg) + rest), Inside(last.text, last.quoting)) == Some([last] + ([WordOf(arg)] + ts))
  {
    ScanSpace(Escape(arg) + rest, last.text, last.quoting);
    ScanEscape(arg, rest);
  }

  lemma Regrouped(a: seq<Token>, b: seq<Token>, c: seq<Token>, d: seq<Token>)
    ensures a + b + (c + d) == a + (b + c) + d
  {
  }

  lemma Rebracketed(a: string, b: string, c: string, d: string)
    ensures a + b + c + d == a + (b + (c + d))
  {
  }

  lemma WordsSnoc(args: seq<string>, rest: string)
    requires args != []
    ensures var k := |args| - 1; Words(args) + rest == Words(args[..k]) + (" " + (Escape(args[k]) + rest))
  {
    var k := |args| - 1;
    Rebracketed(Words(args[..k]), " ", Escape(args[k]), rest);
  }

  function LastWord(args: seq<string>, first: Token): Token {
    if args == [] then first else WordOf(args[|args| - 1])
  }

  // A word in progress, then the arguments, then anything.
  lemma {:induction false} ScanWords(args: seq<string>, rest: string, first: Token, ts: seq<Token>)
    requires first.Word? && forall i :: 0 <= i < |args| ==> NulFree(args[i])
    requires var last := LastWord(args, first); Scan(rest, Inside(last.text, last.quoting)) == Some([last] + ts)
    ensures Scan(Words(args) + rest, Inside(first.text, first.quoting)) == Some([first] + WordsOf(args) + ts)
  {
    if args == [] {
      assert Words(args) + rest == rest;
      assert [first] + WordsOf(args) + ts == [first] + ts;
    } else {
      var k := |args| - 1;
      ScanArgument(args[k], rest, LastWord(args[..k], first), ts);
      ScanWords(args[..k], " " + (Escape(args[k]) + rest), first, [WordOf(args[k])] + ts);
      WordsSnoc(args, rest);
      Regrouped([first], WordsOf(args[..k]), [WordOf(args[k])], ts);
    }
  }

  lemma RenderedTokens(c: CommandSpec)
    requires AllNulFree(c)
    ensures Tokenize(Rendered(c)) == Some(TokensOf(c))
  {
    var end := match c.stdin case None => "" case Some(path) => " < " + Escape(path);
    var last := LastWord(c.args, WordOf(c.program));
    ScanStdin(c.stdin, last.text, last.quoting);
    ScanWords(c.args, end, WordOf(c.program), StdinTokens(c.stdin));
    ScanEscape(c.program, Words(c.args) + end);
    assert Rendered(c) == Escape(c.program) + (Words(c.args) + end);
  }

  // ---------- No shell text holds a NUL ----------

  lemma {:induction false} ScanNulFree(s: string, w: Partial)
    ensures Scan(s, w).Some? ==> NulFree(s)
    decreases |s|
  {
    if s != "" && Scan(s, w).Some? {
      if !w.Quoted? && s[0] == '\\' {
        if s[1] == '\n' { ScanNulFree(s[2..], w); }
          else { ScanNulFree(s[2..], Inside(TextOf(w) + [s[1]], From(QuotedAt(w)))); }
        assert forall i :: 2 <= i < |s| ==> s[i] == s[2..][i - 2];
      } else {
        ScanNulFree(s[1..],
          if w.Quoted? then (if s[0] == '\'' then Inside(w.text, From(w.at)) else Quoted(w.text + [s[0]], w.at))
          else if s[0] == '\'' then Quoted(TextOf(w), QuotedAt(w))
          else if s[0] in {' ', '\t', '<'} then Outside
          else Inside(TextOf(w) + [s[0]], if w.Inside? then w.quoting else Bare));
        assert forall i :: 1 <= i < |s| ==> s[i] == s[1..][i - 1];
      }
    }
  }

  lemma {:induction false} RequotedNulFree(s: string)
    requires NulFree(Requoted(s))
    ensures NulFree(s)
  {
    if s != "" {
      var head := if s[0] == '\'' then "'\\''" else [s[0]];
      assert forall i :: 0 <= i < |Requoted(s[1..])| ==> Requoted(s[1..])[i] == Requoted(s)[|head| + i];
      RequotedNulFree(s[1..]);
      assert Requoted(s)[0] == head[0];
      assert forall i :: 1 <= i < |s| ==> s[i] == s[1..][i - 1];
    }
  }

  lemma NulFreeParts(a: string, b: string)
    requires NulFree(a + b)
    ensures NulFree(a) && NulFree(b)
  {
    assert forall i :: 0 <= i < |a| ==> a[i] == (a + b)[i];
    assert forall i :: 0 <= i < |b| ==> b[i] == (a + b)[|a| + i];
  }

  lemma EscapeNulFree(s: string)
    requires NulFree(Escape(s))
    ensures NulFree(s)
  {
    if !Safe(s) {
      NulFreeParts("'" + Requoted(s), "'");
      NulFreeParts("'", Requoted(s));
      RequotedNulFree(s);
    }
  }

  lemma {:induction false} WordsNulFree(args: seq<string>)
    requires NulFree(Words(args))
    ensures forall i :: 0 <= i < |args| ==> NulFree(args[i])
  {
    if args != [] {
      var k := |args| - 1;
      NulFreeParts(Words(args[..k]) + " ", Escape(args[k]));
      NulFreeParts(Words(args[..k]), " ");
      EscapeNulFree(args[k]);
      WordsNulFree(args[..k]);
      forall i | 0 <= i < |args| ensures NulFree(args[i]) {
        if i < k { assert args[i] == args[..k][i]; }
      }
    }
  }

  /** The rendered line reads back as exactly the program, the arguments and the redirection: for every
      command without NUL characters, which no shell text can hold, and for no other. */
  lemma RenderTokenizes(c: CommandSpec)
    ensures Tokenize(Rendered(c)) == Some(TokensOf(c)) <==> AllNulFree(c)
    ensures Tokenize(Rendered(c)).Some? <==> AllNulFree(c)
  {
    if AllNulFree(c) {
      RenderedTokens(c);
    } else if Tokenize(Rendered(c)).Some? {
      ScanNulFree(Rendered(c), Outside);
      var end := match c.stdin case None => "" case Some(path) => " < " + Escape(path);
      NulFreeParts(Escape(c.program) + Words(c.args), end);
      NulFreeParts(Escape(c.program), Words(c.args));
      EscapeNulFree(c.program);
      WordsNulFree(c.args);
      if c.stdin.Some? {
        NulFreeParts(" < ", Escape(c.stdin.value));
        EscapeNulFree(c.stdin.value);
      }
    }
  }

  // ---------- The command ----------

  const RESERVED: set<string> := {"!", "{", "}", "case", "do", "done", "elif", "else", "esac", "fi", "for", "if", "in",
    "then", "until", "while"}

  predicate NameChar(c: char) {
    'a' <= c <= 'z' || 'A' <= c <= 'Z' || '0' <= c <= '9' || c == '_'
  }

  // A name, then '=', before any quoting.
  predicate Assignment(text: string, bare: nat) {
    exists k :: 0 < k < |text| && k < bare && text[k] == '=' && !('0' <= text[0] <= '9')
      && forall i :: 0 <= i < k ==> NameChar(text[i])
  }

  predicate AssignmentWord(t: Token)
    requires t.Word?
  {
    Assignment(t.text, match t.quoting case Bare => |t.text| case From(at) => at)
  }

  datatype Simple = Simple(assignments: seq<string>, words: seq<string>, inputs: seq<string>)

  // Assignments up to the command name, then words, with redirections anywhere.
  function Collected(ts: seq<Token>, named: bool): Option<Simple>
    decreases |ts|
  {
    if ts == [] then Some(Simple([], [], []))
    else if ts[0].Less? then
      if |ts| == 1 || ts[1].Less? then None
      else match Collected(ts[2..], named)
        case None => None
        case Some(c) => Some(c.(inputs := [ts[1].text] + c.inputs))
    else if !named && AssignmentWord(ts[0]) then
      match Collected(ts[1..], false)
      case None => None
      case Some(c) => Some(c.(assignments := [ts[0].text] + c.assignments))
    else
      match Collected(ts[1..], true)
      case None => None
      case Some(c) => Some(c.(words := [ts[0].text] + c.words))
  }

  predicate ReservedWord(t: Token) {
    t.Word? && t.quoting.Bare? && t.text in RESERVED
  }

  function SimpleCommand(ts: seq<Token>): Option<Simple> {
    if ts != [] && ReservedWord(ts[0]) then None else Collected(ts, false)
  }

  function Inputs(stdin: Option<string>): seq<string> {
    match stdin case None => [] case Some(path) => [path]
  }

  lemma {:induction false} CollectedWords(args: seq<string>, stdin: Option<string>, ts: seq<Token>)
    requires |ts| == |args| && forall i :: 0 <= i < |args| ==> ts[i] == WordOf(args[i])
    ensures Collected(ts + StdinTokens(stdin), true) == Some(Simple([], args, Inputs(stdin)))
  {
    if args == [] {
      assert ts + StdinTokens(stdin) == StdinTokens(stdin);
      if stdin.Some? {
        assert StdinTokens(stdin)[2..] == [];
        assert Collected([], true) == Some(Simple([], [], []));
        assert [stdin.value] + [] == [stdin.value];
      }
    } else {
      assert (ts + StdinTokens(stdin))[1..] == ts[1..] + StdinTokens(stdin);
      CollectedWords(args[1..], stdin, ts[1..]);
      assert [args[0]] + args[1..] == args;
    }
  }

  // Text the shell would not take as a command name.
  predicate Misread(program: string) {
    Safe(program) && (program in RESERVED || Assignment(program, |program|))
  }

  /** The line runs exactly the program on exactly the arguments, reading exactly the file, unless the
      program's own text is a reserved word or begins like an assignment and is printed unquoted. */
  lemma RenderRuns(c: CommandSpec)
    requires AllNulFree(c)
    ensures Tokenize(Rendered(c)).Some?
    ensures SimpleCommand(Tokenize(Rendered(c)).value) == Some(Simple([], [c.program] + c.args, Inputs(c.stdin)))
      <==> !Misread(c.program)
  {
    RenderedTokens(c);
    var ts := TokensOf(c);
    assert ts[0] == WordOf(c.program) && ts[1..] == WordsOf(c.args) + StdinTokens(c.stdin);
    CollectedWords(c.args, c.stdin, WordsOf(c.args));
  }

  /** A program whose path starts like an assignment is not run: the first argument is. */
  lemma AssignmentProgram(arg: string)
    requires NulFree(arg) && !Misread(arg)
    ensures var c := CommandSpec("a=b", [arg], None);
      Tokenize(Rendered(c)).Some? && SimpleCommand(Tokenize(Rendered(c)).value) == Some(Simple(["a=b"], [arg], []))
  {
    var c := CommandSpec("a=b", [arg], None);
    RenderedTokens(c);
    assert Assignment("a=b", 3) by { assert "a=b"[1] == '='; }
    assert TokensOf(c) == [WordOf("a=b"), WordOf(arg)];
    assert TokensOf(c)[1..] == [WordOf(arg)] && [WordOf(arg)][1..] == [];
    assert Collected([], true) == Some(Simple([], [], []));
    assert [arg] + [] == [arg] && ["a=b"] + [] == ["a=b"];
    assert Collected([WordOf(arg)], false) == Some(Simple([], [arg], []));
  }
}
