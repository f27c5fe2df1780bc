/** Indented JSON text, as the session's state files hold it. */
module PrettyJson {
  import opened Wrappers
  import opened Json

  function Indent(depth: nat): Bytes {
    if depth == 0 then "" else "  " + Indent(depth - 1)
  }

  function Pretty(v: Value, depth: nat): Bytes
    decreases v, 1
  {
    match v
    case Array(items) =>
      if items == [] then "[]"
      else "[\n" + Indent(depth + 1) + Pretty(items[0], depth + 1) + PrettyItems(items[1..], depth)
    case Object(fields) =>
      if fields == [] then "{}"
      else "{\n" + Indent(depth + 1) + PrettyField(fields[0], depth + 1) + PrettyFields(fields[1..], depth)
    case _ => Encode(v)
  }

  function PrettyItems(items: seq<Value>, depth: nat): Bytes
    decreases items, 0
  {
    if items == [] then "\n" + Indent(depth) + "]"
    else ",\n" + Indent(depth + 1) + Pretty(items[0], depth + 1) + PrettyItems(items[1..], depth)
  }

  function PrettyField(f: Field, depth: nat): Bytes
    decreases f, 2
  {
    Quote(f.key) + ": " + Pretty(f.value, depth)
  }

  function PrettyFields(fields: seq<Field>, depth: nat): Bytes
    decreases fields, 0
  {
    if fields == [] then "\n" + Indent(depth) + "}"
    else ",\n" + Indent(depth + 1) + PrettyField(fields[0], depth + 1) + PrettyFields(fields[1..], depth)
  }

  // ---------- Reading ----------

  predicate Blank(c: char) {
    c == ' ' || c == '\n' || c == '\r' || c == '\t'
  }

  predicate Mark(c: char) {
    c == '[' || c == ']' || c == '{' || c == '}' || c == ',' || c == ':'
  }

  // Where the reader stands: between tokens, in a number or literal, after blanks that follow one, or in a string.
  datatype Mode = Apart | Word | Gap | Quoted

  function Ahead(a: Bytes, rest: Option<Bytes>): Option<Bytes> {
    match rest case None => None case Some(t) => Some(a + t)
  }

  // The text without the blanks between tokens; blanks within a number or literal make it unreadable.
  function Squeezed(s: Bytes, mode: Mode): Option<Bytes> {
    if s == "" then Some("")
    else if mode.Quoted? then
      if s[0] == '\\' && |s| > 1 then Ahead(s[..2], Squeezed(s[2..], Quoted))
      else Ahead([s[0]], Squeezed(s[1..], if s[0] == '\"' then Apart else Quoted))
    else if s[0] == '\"' then Ahead("\"", Squeezed(s[1..], Quoted))
    else if Blank(s[0]) then Squeezed(s[1..], if mode.Word? then Gap else mode)
    else if Mark(s[0]) then Ahead([s[0]], Squeezed(s[1..], Apart))
    else if mode.Gap? then None
    else Ahead([s[0]], Squeezed(s[1..], Word))
  }

  function Read(text: Bytes): Option<Value> {
    match Squeezed(text, Apart) case None => None case Some(t) => Parse(t)
  }

  // ---------- What squeezing leaves ----------

  lemma AheadTwice(a: Bytes, b: Bytes, rest: Option<Bytes>)
    ensures Ahead(a, Ahead(b, rest)) == Ahead(a + b, rest)
  {
    if rest.Some? { assert a + (b + rest.value) == a + b + rest.value; }
  }

  lemma AheadNothing(rest: Option<Bytes>)
    ensures Ahead("", rest) == rest
  {
    if rest.Some? { assert "" + rest.value == rest.value; }
  }

  lemma Regroup(a: Bytes, b: Bytes, c: Bytes)
    ensures a + b + c == a + (b + c)
  {
  }

  lemma SqueezeBlank(c: char, rest: Bytes, mode: Mode)
    requires Blank(c) && !mode.Quoted?
    ensures Squeezed([c] + rest, mode) == Squeezed(rest, if mode.Word? then Gap else mode)
  {
    assert ([c] + rest)[0] == c && ([c] + rest)[1..] == rest;
  }

  lemma SqueezeMark(c: char, rest: Bytes, mode: Mode)
    requires Mark(c) && !mode.Quoted?
    ensures Squeezed([c] + rest, mode) == Ahead([c], Squeezed(rest, Apart))
  {
    assert ([c] + rest)[0] == c && ([c] + rest)[1..] == rest;
  }

  predicate Scalar(c: char) {
    c != '\"' && !Blank(c) && !Mark(c)
  }

  lemma SqueezeScalar(c: char, rest: Bytes, mode: Mode)
    requires Scalar(c) && (mode.Apart? || mode.Word?)
    ensures Squeezed([c] + rest, mode) == Ahead([c], Squeezed(rest, Word))
  {
    assert ([c] + rest)[0] == c && ([c] + rest)[1..] == rest;
  }

  // A number or literal stays as it is.
  lemma {:induction false} SqueezeWord(s: Bytes, rest: Bytes, mode: Mode)
    requires s != "" && (forall i :: 0 <= i < |s| ==> Scalar(s[i])) && (mode.Apart? || mode.Word?)
    ensures Squeezed(s + rest, mode) == Ahead(s, Squeezed(rest, Word))
    decreases s
  {
    assert s + rest == [s[0]] + (s[1..] + rest) && s == [s[0]] + s[1..];
    SqueezeScalar(s[0], s[1..] + rest, mode);
    if s[1..] == "" {
      assert s[1..] + rest == rest;
    } else {
      SqueezeWord(s[1..], rest, Word);
      AheadTwice([s[0]], s[1..], Squeezed(rest, Word));
    }
  }

  lemma {:induction false} SqueezeIndent(depth: nat, rest: Bytes, mode: Mode)
    requires mode.Apart? || mode.Gap?
    ensures Squeezed(Indent(depth) + rest, mode) == Squeezed(rest, mode)
  {
    if depth == 0 {
      assert Indent(depth) + rest == rest;
    } else {
      var more := Indent(depth - 1) + rest;
      assert Indent(depth) + rest == [' '] + ([' '] + more);
      SqueezeBlank(' ', [' '] + more, mode);
      SqueezeBlank(' ', more, mode);
      SqueezeIndent(depth - 1, rest, mode);
    }
  }

  // ---------- Strings ----------

  lemma SqueezeInside(c: char, rest: Bytes)
    requires c != '\"' && c != '\\'
    ensures Squeezed([c] + rest, Quoted) == Ahead([c], Squeezed(rest, Quoted))
  {
    assert ([c] + rest)[0] == c && ([c] + rest)[1..] == rest;
  }

  lemma SqueezePair(pair: Bytes, rest: Bytes)
    requires |pair| == 2 && pair[0] == '\\'
    ensures Squeezed(pair + rest, Quoted) == Ahead(pair, Squeezed(rest, Quoted))
  {
    assert (pair + rest)[0] == '\\' && (pair + rest)[..2] == pair && (pair + rest)[2..] == rest;
  }

  lemma SqueezeUnicode(x: char, y: char, rest: Bytes)
    requires x != '\"' && x != '\\' && y != '\"' && y != '\\'
    ensures Squeezed("\\u00" + [x, y] + rest, Quoted) == Ahead("\\u00" + [x, y], Squeezed(rest, Quoted))
  {
    var end := Squeezed(rest, Quoted);
    assert "\\u00" + [x, y] + rest == "\\u" + (['0'] + (['0'] + ([x] + ([y] + rest))));
    SqueezePair("\\u", ['0'] + (['0'] + ([x] + ([y] + rest))));
    SqueezeInside('0', ['0'] + ([x] + ([y] + rest)));
    SqueezeInside('0', [x] + ([y] + rest));
    SqueezeInside(x, [y] + rest);
    SqueezeInside(y, rest);
    AheadTwice([x], [y], end);
    AheadTwice(['0'], [x] + [y], end);
    AheadTwice(['0'], ['0'] + ([x] + [y]), end);
    AheadTwice("\\u", ['0'] + (['0'] + ([x] + [y])), end);
    assert "\\u" + (['0'] + (['0'] + ([x] + [y]))) == "\\u00" + [x, y];
  }

  // One character of a string, as it is escaped.
  lemma SqueezeEscape(c: char, rest: Bytes)
    ensures Squeezed(EscapeByte(c) + rest, Quoted) == Ahead(EscapeByte(c), Squeezed(rest, Quoted))
  {
    var e := EscapeByte(c);
    if |e| == 1 {
      SqueezeInside(c, rest);
    } else if |e| == 2 {
      SqueezePair(e, rest);
    } else {
      SqueezeUnicode(e[4], e[5], rest);
      assert e == "\\u00" + [e[4], e[5]];
    }
  }

  lemma {:induction false} SqueezeEscaped(s: Bytes, rest: Bytes)
    ensures Squeezed(Escape(s) + rest, Quoted) == Ahead(Escape(s), Squeezed(rest, Quoted))
  {
    if s == "" {
      assert Escape(s) + rest == rest;
      AheadNothing(Squeezed(rest, Quoted));
    } else {
      Regroup(EscapeByte(s[0]), Escape(s[1..]), rest);
      SqueezeEscape(s[0], Escape(s[1..]) + rest);
      SqueezeEscaped(s[1..], rest);
      AheadTwice(EscapeByte(s[0]), Escape(s[1..]), Squeezed(rest, Quoted));
    }
  }

  lemma SqueezeOpening(rest: Bytes, mode: Mode)
    requires !mode.Quoted?
    ensures Squeezed("\"" + rest, mode) == Ahead("\"", Squeezed(rest, Quoted))
  {
    assert ("\"" + rest)[0] == '\"' && ("\"" + rest)[1..] == rest;
  }

  lemma SqueezeClosing(rest: Bytes)
    ensures Squeezed("\"" + rest, Quoted) == Ahead("\"", Squeezed(rest, Apart))
  {
    assert ("\"" + rest)[0] == '\"' && ("\"" + rest)[1..] == rest;
  }

  lemma Quoting(e: Bytes, rest: Bytes)
    ensures "\"" + e + "\"" + rest == "\"" + (e + ("\"" + rest))
  {
  }

  lemma SqueezeQuote(s: Bytes, rest: Bytes)
    ensures Squeezed(Quote(s) + rest, Apart) == Ahead(Quote(s), Squeezed(rest, Apart))
  {
    Quoting(Escape(s), rest);
    SqueezeOpening(Escape(s) + ("\"" + rest), Apart);
    SqueezeEscaped(s, "\"" + rest);
    SqueezeClosing(rest);
    AheadTwice(Escape(s), "\"", Squeezed(rest, Apart));
    AheadTwice("\"", Escape(s) + "\"", Squeezed(rest, Apart));
    Regroup("\"", Escape(s), "\"");
  }

  // ---------- Documents ----------

  // A mark, a line break and an indentation leave the mark.
  lemma SqueezeOpen(mark: Bytes, c: char, depth: nat, rest: Bytes, mode: Mode)
    requires mark == [c] + "\n" && Mark(c) && !mode.Quoted?
    ensures Squeezed(mark + Indent(depth) + rest, mode) == Ahead([c], Squeezed(rest, Apart))
  {
    var more := Indent(depth) + rest;
    assert mark + Indent(depth) + rest == [c] + (['\n'] + more);
    SqueezeMark(c, ['\n'] + more, mode);
    SqueezeBlank('\n', more, Apart);
    SqueezeIndent(depth, rest, Apart);
  }

  lemma SqueezeClose(c: char, depth: nat, rest: Bytes, mode: Mode)
    requires Mark(c) && !mode.Quoted?
    ensures Squeezed("\n" + Indent(depth) + [c] + rest, mode) == Ahead([c], Squeezed(rest, Apart))
  {
    var more, next := Indent(depth) + ([c] + rest), if mode.Word? then Gap else mode;
    assert "\n" + Indent(depth) + [c] + rest == ['\n'] + more;
    SqueezeBlank('\n', more, mode);
    SqueezeIndent(depth, [c] + rest, next);
    SqueezeMark(c, rest, next);
  }

  lemma {:induction false} DecimalScalar(n: nat)
    ensures forall i :: 0 <= i < |Decimal(n)| ==> Scalar(Decimal(n)[i])
  {
    if n >= 10 { DecimalScalar(n / 10); }
  }

  lemma Bracketed(a: Bytes, b: Bytes, c: Bytes, d: Bytes, e: Bytes)
    ensures a + b + c + d + e == a + b + (c + (d + e))
  {
  }

  // Three pieces in front are one.
  lemma AheadThrice(a: Bytes, b: Bytes, c: Bytes, rest: Option<Bytes>)
    ensures Ahead(a, Ahead(b, Ahead(c, rest))) == Ahead(a + b + c, rest)
  {
    AheadTwice(b, c, rest);
    AheadTwice(a, b + c, rest);
    Regroup(a, b, c);
  }

  // Where the reader stands after a document.
  function After(v: Value): Mode {
    if v.Null? || v.Bool? || v.Number? then Word else Apart
  }

  lemma {:induction false} SqueezePretty(v: Value, depth: nat, rest: Bytes)
    ensures Squeezed(Pretty(v, depth) + rest, Apart) == Ahead(Encode(v), Squeezed(rest, After(v)))
    decreases v, 1
  {
    match v
    case Null => SqueezeWord("null", rest, Apart);
    case Bool(flag) => SqueezeWord(if flag then "true" else "false", rest, Apart);
    case Number(n) => DecimalScalar(n); SqueezeWord(Decimal(n), rest, Apart);
    case String(text) => SqueezeQuote(text, rest);
    case Array(items) => SqueezeArray(items, depth, rest);
    case Object(fields) => SqueezeObject(fields, depth, rest);
  }

  lemma SqueezeEmpty(open: char, close: char, rest: Bytes)
    requires Mark(open) && Mark(close)
    ensures Squeezed([open, close] + rest, Apart) == Ahead([open, close], Squeezed(rest, Apart))
  {
    assert [open, close] + rest == [open] + ([close] + rest) && [open, close] == [open] + [close];
    SqueezeMark(open, [close] + rest, Apart);
    SqueezeMark(close, rest, Apart);
    AheadTwice([open], [close], Squeezed(rest, Apart));
  }

  lemma {:induction false} SqueezeArray(items: seq<Value>, depth: nat, rest: Bytes)
    ensures Squeezed(Pretty(Array(items), depth) + rest, Apart) == Ahead(Encode(Array(items)), Squeezed(rest, Apart))
    decreases items, 2
  {
    if items == [] {
      SqueezeEmpty('[', ']', rest);
    } else {
      var first, more := Pretty(items[0], depth + 1), PrettyItems(items[1..], depth);
      Bracketed("[\n", Indent(depth + 1), first, more, rest);
      SqueezeOpen("[\n", '[', depth + 1, first + (more + rest), Apart);
      SqueezePretty(items[0], depth + 1, more + rest);
      SqueezeItems(items[1..], depth, rest, After(items[0]));
      AheadThrice("[", Encode(items[0]), EncodeItems(items[1..]), Squeezed(rest, Apart));
    }
  }

  lemma {:induction false} SqueezeItems(items: seq<Value>, depth: nat, rest: Bytes, mode: Mode)
    requires !mode.Quoted?
    ensures Squeezed(PrettyItems(items, depth) + rest, mode) == Ahead(EncodeItems(items), Squeezed(rest, Apart))
    decreases items, 0
  {
    if items == [] {
      SqueezeClose(']', depth, rest, mode);
    } else {
      var first, more := Pretty(items[0], depth + 1), PrettyItems(items[1..], depth);
      Bracketed(",\n", Indent(depth + 1), first, more, rest);
      SqueezeOpen(",\n", ',', depth + 1, first + (more + rest), mode);
      SqueezePretty(items[0], depth + 1, more + rest);
      SqueezeItems(items[1..], depth, rest, After(items[0]));
      AheadThrice(",", Encode(items[0]), EncodeItems(items[1..]), Squeezed(rest, Apart));
    }
  }

  lemma FieldWritten(key: Bytes, value: Bytes, rest: Bytes)
    ensures key + ": " + value + rest == key + ([':'] + ([' '] + (value + rest)))
  {
  }

  lemma {:induction false} SqueezeField(f: Field, depth: nat, rest: Bytes)
    ensures Squeezed(PrettyField(f, depth) + rest, Apart) == Ahead(EncodeField(f), Squeezed(rest, After(f.value)))
    decreases f, 2
  {
    var value := Pretty(f.value, depth) + rest;
    FieldWritten(Quote(f.key), Pretty(f.value, depth), rest);
    SqueezeQuote(f.key, [':'] + ([' '] + value));
    SqueezeMark(':', [' '] + value, Apart);
    SqueezeBlank(' ', value, Apart);
    SqueezePretty(f.value, depth, rest);
    AheadThrice(Quote(f.key), ":", Encode(f.value), Squeezed(rest, After(f.value)));
  }

  lemma {:induction false} SqueezeObject(fields: seq<Field>, depth: nat, rest: Bytes)
    ensures Squeezed(Pretty(Object(fields), depth) + rest, Apart) ==
      Ahead(Encode(Object(fields)), Squeezed(rest, Apart))
    decreases fields, 2
  {
    if fields == [] {
      SqueezeEmpty('{', '}', rest);
    } else {
      var first, more := PrettyField(fields[0], depth + 1), PrettyFields(fields[1..], depth);
      Bracketed("{\n", Indent(depth + 1), first, more, rest);
      SqueezeOpen("{\n", '{', depth + 1, first + (more + rest), Apart);
      SqueezeField(fields[0], depth + 1, more + rest);
      SqueezeFields(fields[1..], depth, rest, After(fields[0].value));
      AheadThrice("{", EncodeField(fields[0]), EncodeFields(fields[1..]), Squeezed(rest, Apart));
    }
  }

  lemma {:induction false} SqueezeFields(fields: seq<Field>, depth: nat, rest: Bytes, mode: Mode)
    requires !mode.Quoted?
    ensures Squeezed(PrettyFields(fields, depth) + rest, mode) == Ahead(EncodeFields(fields), Squeezed(rest, Apart))
    decreases fields, 0
  {
    if fields == [] {
      SqueezeClose('}', depth, rest, mode);
    } else {
      var first, more := PrettyField(fields[0], depth + 1), PrettyFields(fields[1..], depth);
      Bracketed(",\n", Indent(depth + 1), first, more, rest);
      SqueezeOpen(",\n", ',', depth + 1, first + (more + rest), mode);
      SqueezeField(fields[0], depth + 1, more + rest);
      SqueezeFields(fields[1..], depth, rest, After(fields[0].value));
      AheadThrice(",", EncodeField(fields[0]), EncodeFields(fields[1..]), Squeezed(rest, Apart));
    }
  }

  /** Indented text, with a line break at its end, is read back as the document it was written from. */
  lemma PrettyRoundTrip(v: Value)
    ensures Read(Pretty(v, 0) + "\n") == Some(v)
  {
    SqueezePretty(v, 0, "\n");
    assert "\n" == ['\n'] + "";
    SqueezeBlank('\n', "", After(v));
    assert Encode(v) + "" == Encode(v);
    RoundTrip(v);
  }

  // ---------- What it does not skip ----------

  // Where the reader stands after this text.
  function Standing(s: Bytes, mode: Mode): Mode {
    if s == "" then mode
    else if mode.Quoted? then
      if s[0] == '\\' && |s| > 1 then Standing(s[2..], Quoted)
      else Standing(s[1..], if s[0] == '\"' then Apart else Quoted)
    else if s[0] == '\"' then Standing(s[1..], Quoted)
    else if Blank(s[0]) then Standing(s[1..], if mode.Word? then Gap else mode)
    else if Mark(s[0]) then Standing(s[1..], Apart)
    else Standing(s[1..], Word)
  }

  lemma {:induction false} UnreadableAfter(before: Bytes, rest: Bytes, mode: Mode)
    requires Standing(before, mode).Word? && Squeezed(rest, Word) == None
    ensures Squeezed(before + rest, mode) == None
    decreases before
  {
    var s := before + rest;
    if before == "" {
      assert s == rest;
    } else if mode.Quoted? && before[0] == '\\' && |before| > 1 {
      assert s[2..] == before[2..] + rest;
      UnreadableAfter(before[2..], rest, Quoted);
    } else {
      assert s[1..] == before[1..] + rest;
      var next := if mode.Quoted? then (if before[0] == '\"' then Apart else Quoted)
        else if before[0] == '\"' then Quoted
        else if Blank(before[0]) then (if mode.Word? then Gap else mode)
        else if Mark(before[0]) then Apart else Word;
      UnreadableAfter(before[1..], rest, next);
    }
  }

  lemma {:induction false} UnreadableGap(gap: Bytes, c: char, after: Bytes)
    requires (forall i :: 0 <= i < |gap| ==> Blank(gap[i])) && Scalar(c)
    ensures Squeezed(gap + ([c] + after), Gap) == None
  {
    if gap == "" {
      assert gap + ([c] + after) == [c] + after;
    } else {
      assert gap + ([c] + after) == [gap[0]] + (gap[1..] + ([c] + after));
      SqueezeBlank(gap[0], gap[1..] + ([c] + after), Gap);
      UnreadableGap(gap[1..], c, after);
    }
  }

  /** Any text with blanks within a number or literal is unreadable. */
  lemma SplitWord(before: Bytes, gap: Bytes, c: char, after: Bytes)
    requires Standing(before, Apart).Word? && Scalar(c)
    requires gap != "" && forall i :: 0 <= i < |gap| ==> Blank(gap[i])
    ensures Read(before + (gap + ([c] + after))) == None
  {
    assert gap + ([c] + after) == [gap[0]] + (gap[1..] + ([c] + after));
    SqueezeBlank(gap[0], gap[1..] + ([c] + after), Word);
    UnreadableGap(gap[1..], c, after);
    UnreadableAfter(before, gap + ([c] + after), Apart);
  }
}
