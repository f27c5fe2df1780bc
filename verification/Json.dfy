/**
JSON documents, the compact text form that the logger writes, and a reader for it.

Text is a sequence of bytes. A byte is written as a `char`, so a Rust string
appears here as the sequence of its UTF-8 bytes.
*/
module Json {
  import opened Wrappers

  type Bytes = string

  datatype Value =
    | Null
    | Bool(flag: bool)
    | Number(n: nat)
    | String(text: Bytes)
    | Array(items: seq<Value>)
    | Object(fields: seq<Field>)

  datatype Field = Field(key: Bytes, value: Value)

  // ---------- Numbers ----------

  predicate IsDigit(c: char) {
    '0' <= c <= '9'
  }

  function DigitValue(c: char): nat
    requires IsDigit(c)
  {
    c as int - '0' as int
  }

  function Digit(d: nat): (c: char)
    requires d < 10
    ensures IsDigit(c) && DigitValue(c) == d
  {
    '0' + d as char
  }

  function Decimal(n: nat): (s: Bytes)
    ensures s != "" && IsDigit(s[0])
    ensures |s| > 1 ==> s[0] != '0'
  {
    if n < 10 then [Digit(n)] else Decimal(n / 10) + [Digit(n % 10)]
  }

  // ---------- Strings ----------

  function HexValue(c: char): Option<nat> {
    if '0' <= c <= '9' then Some(c as int - '0' as int)
    else if 'a' <= c <= 'f' then Some(c as int - 'a' as int + 10)
    else if 'A' <= c <= 'F' then Some(c as int - 'A' as int + 10)
    else None
  }

  function HexDigit(d: nat): (c: char)
    requires d < 16
    ensures HexValue(c) == Some(d)
  {
    if d < 10 then '0' + d as char else 'a' + (d - 10) as char
  }

  // The escapes the writer chooses: short forms where RFC 8259 section 7 has
  // one, `\u00XX` for the other control bytes, everything else verbatim.
  function EscapeByte(c: char): Bytes {
    if c == '\"' then "\\\""
    else if c == '\\' then "\\\\"
    else if c as int == 8 then "\\b"
    else if c as int == 9 then "\\t"
    else if c as int == 10 then "\\n"
    else if c as int == 12 then "\\f"
    else if c as int == 13 then "\\r"
    else if c < ' ' then "\\u00" + [HexDigit(c as int / 16), HexDigit(c as int % 16)]
    else [c]
  }

  function Escape(s: Bytes): Bytes {
    if s == "" then "" else EscapeByte(s[0]) + Escape(s[1..])
  }

  function Quote(s: Bytes): Bytes {
    "\"" + Escape(s) + "\""
  }

  // ---------- Writer ----------

  function Encode(v: Value): Bytes
    decreases v, 1
  {
    match v
    case Null => "null"
    case Bool(flag) => if flag then "true" else "false"
    case Number(n) => Decimal(n)
    case String(text) => Quote(text)
    case Array(items) =>
      if items == [] then "[]" else "[" + Encode(items[0]) + EncodeItems(items[1..])
    case Object(fields) =>
      if fields == [] then "{}" else "{" + EncodeField(fields[0]) + EncodeFields(fields[1..])
  }

  // The remaining items, each after a comma, and the closing bracket.
  function EncodeItems(items: seq<Value>): Bytes
    decreases items, 0
  {
    if items == [] then "]" else "," + Encode(items[0]) + EncodeItems(items[1..])
  }

  function EncodeField(f: Field): Bytes
    decreases f, 2
  {
    Quote(f.key) + ":" + Encode(f.value)
  }

  function EncodeFields(fields: seq<Field>): Bytes
    decreases fields, 0
  {
    if fields == [] then "}" else "," + EncodeField(fields[0]) + EncodeFields(fields[1..])
  }

  // ---------- Reader ----------

  datatype Parsed<+T> = Fail | Done(value: T, rest: Bytes)

  // The longest run of digits at the front, added to what was read so far.
  function ParseDigits(s: Bytes, acc: nat): (r: (nat, Bytes))
    ensures |r.1| <= |s|
  {
    if s != "" && IsDigit(s[0]) then ParseDigits(s[1..], acc * 10 + DigitValue(s[0]))
    else (acc, s)
  }

  function ParseNumber(s: Bytes): (r: Parsed<nat>)
    ensures r.Done? ==> |r.rest| < |s|
  {
    if s == "" || !IsDigit(s[0]) then Fail
    else if s[0] == '0' && |s| > 1 && IsDigit(s[1]) then Fail
    else var (n, rest) := ParseDigits(s[1..], DigitValue(s[0])); Done(n, rest)
  }

  // UTF-8 bytes of a code point.
  function Utf8(code: nat): Bytes
    requires code < 0x110000
  {
    if code < 0x80 then [code as char]
    else if code < 0x800 then [(0xC0 + code / 64) as char, (0x80 + code % 64) as char]
    else if code < 0x10000 then
      [(0xE0 + code / 4096) as char, (0x80 + code / 64 % 64) as char, (0x80 + code % 64) as char]
    else
      [(0xF0 + code / 262144) as char, (0x80 + code / 4096 % 64) as char,
       (0x80 + code / 64 % 64) as char, (0x80 + code % 64) as char]
  }

  function ParseHex4(s: Bytes): (r: Parsed<nat>)
    ensures r.Done? ==> |r.rest| < |s| && r.value < 0x10000
  {
    if |s| < 4 then Fail
    else match (HexValue(s[0]), HexValue(s[1]), HexValue(s[2]), HexValue(s[3]))
      case (Some(a), Some(b), Some(c), Some(d)) => Done(((a * 16 + b) * 16 + c) * 16 + d, s[4..])
      case _ => Fail
  }

  // The four hex digits after `\u`, and the second half of a surrogate pair.
  function ParseUnicode(s: Bytes): (r: Parsed<Bytes>)
    ensures r.Done? ==> |r.rest| < |s|
  {
    match ParseHex4(s)
    case Fail => Fail
    case Done(unit, rest) =>
      if 0xD800 <= unit < 0xDC00 then
        if |rest| < 2 || rest[..2] != "\\u" then Fail
        else match ParseHex4(rest[2..])
          case Fail => Fail
          case Done(low, rest') =>
            if 0xDC00 <= low < 0xE000
            then Done(Utf8(0x10000 + (unit - 0xD800) * 0x400 + (low - 0xDC00)), rest')
            else Fail
      else if 0xDC00 <= unit < 0xE000 then Fail
      else Done(Utf8(unit), rest)
  }

  // One escape sequence after its backslash, by RFC 8259 section 7.
  function ParseEscape(s: Bytes): (r: Parsed<Bytes>)
    ensures r.Done? ==> |r.rest| < |s|
  {
    if s == "" then Fail
    else match s[0]
      case '\"' => Done("\"", s[1..])
      case '\\' => Done("\\", s[1..])
      case '/' => Done("/", s[1..])
      case 'b' => Done([8 as char], s[1..])
      case 'f' => Done([12 as char], s[1..])
      case 'n' => Done([10 as char], s[1..])
      case 'r' => Done([13 as char], s[1..])
      case 't' => Done([9 as char], s[1..])
      case 'u' => ParseUnicode(s[1..])
      case _ => Fail
  }

  // One byte of string content, or one escape sequence.
  function ParseChar(s: Bytes): (r: Parsed<Bytes>)
    ensures r.Done? ==> |r.rest| < |s|
  {
    if s == "" || s[0] < ' ' then Fail
    else if s[0] == '\\' then ParseEscape(s[1..])
    else Done([s[0]], s[1..])
  }

  function Prepend(c: Bytes, r: Parsed<Bytes>): Parsed<Bytes> {
    match r
    case Fail => Fail
    case Done(cs, rest) => Done(c + cs, rest)
  }

  // String content up to and including the closing quote.
  function ParseChars(s: Bytes): (r: Parsed<Bytes>)
    ensures r.Done? ==> |r.rest| < |s|
    decreases |s|
  {
    if s != "" && s[0] == '\"' then Done("", s[1..])
    else match ParseChar(s)
      case Fail => Fail
      case Done(c, rest) => Prepend(c, ParseChars(rest))
  }

  function ParseWord(s: Bytes, word: Bytes, v: Value): (r: Parsed<Value>)
    requires word != ""
    ensures r.Done? ==> |r.rest| < |s|
  {
    if word <= s then Done(v, s[|word|..]) else Fail
  }

  function ParseString(s: Bytes): (r: Parsed<Value>)
    requires s != ""
    ensures r.Done? ==> |r.rest| < |s|
  {
    match ParseChars(s[1..]) case Fail => Fail case Done(t, rest) => Done(String(t), rest)
  }

  function ParseValue(s: Bytes): (r: Parsed<Value>)
    ensures r.Done? ==> |r.rest| < |s|
    decreases |s|, 1
  {
    if s == "" then Fail
    else match s[0]
      case '\"' => ParseString(s)
      case '[' => ParseArray(s)
      case '{' => ParseObject(s)
      case 'n' => ParseWord(s, "null", Null)
      case 't' => ParseWord(s, "true", Bool(true))
      case 'f' => ParseWord(s, "false", Bool(false))
      case _ => match ParseNumber(s) case Fail => Fail case Done(n, rest) => Done(Number(n), rest)
  }

  function ParseArray(s: Bytes): (r: Parsed<Value>)
    requires s != ""
    ensures r.Done? ==> |r.rest| < |s|
    decreases |s|, 0
  {
    if |s| > 1 && s[1] == ']' then Done(Array([]), s[2..])
    else match ParseValue(s[1..])
      case Fail => Fail
      case Done(v, rest) =>
        match ParseItems(rest) case Fail => Fail case Done(vs, rest') => Done(Array([v] + vs), rest')
  }

  function ParseObject(s: Bytes): (r: Parsed<Value>)
    requires s != ""
    ensures r.Done? ==> |r.rest| < |s|
    decreases |s|, 0
  {
    if |s| > 1 && s[1] == '}' then Done(Object([]), s[2..])
    else match ParseField(s[1..])
      case Fail => Fail
      case Done(f, rest) =>
        match ParseFields(rest) case Fail => Fail case Done(fs, rest') => Done(Object([f] + fs), rest')
  }

  function ParseItems(s: Bytes): (r: Parsed<seq<Value>>)
    ensures r.Done? ==> |r.rest| < |s|
    decreases |s|, 0
  {
    if s == "" then Fail
    else if s[0] == ']' then Done([], s[1..])
    else if s[0] != ',' then Fail
    else match ParseValue(s[1..]) {
      case Fail => Fail
      case Done(v, rest) =>
        match ParseItems(rest) { case Fail => Fail case Done(vs, rest') => Done([v] + vs, rest') }
    }
  }

  function ParseField(s: Bytes): (r: Parsed<Field>)
    ensures r.Done? ==> |r.rest| < |s|
    decreases |s|, 2
  {
    if s == "" || s[0] != '\"' then Fail
    else match ParseChars(s[1..]) {
      case Fail => Fail
      case Done(key, rest) =>
        if rest == "" || rest[0] != ':' then Fail
        else match ParseValue(rest[1..]) {
          case Fail => Fail
          case Done(v, rest') => Done(Field(key, v), rest')
        }
    }
  }

  function ParseFields(s: Bytes): (r: Parsed<seq<Field>>)
    ensures r.Done? ==> |r.rest| < |s|
    decreases |s|, 0
  {
    if s == "" then Fail
    else if s[0] == '}' then Done([], s[1..])
    else if s[0] != ',' then Fail
    else match ParseField(s[1..]) {
      case Fail => Fail
      case Done(f, rest) =>
        match ParseFields(rest) { case Fail => Fail case Done(fs, rest') => Done([f] + fs, rest') }
    }
  }

  // A whole document: nothing may follow the value.
  function Parse(s: Bytes): Option<Value> {
    match ParseValue(s)
    case Done(v, "") => Some(v)
    case _ => None
  }

  // ---------- Reading back what was written ----------

  predicate NoDigitAhead(t: Bytes) {
    t == "" || !IsDigit(t[0])
  }

  // Reading the digits of n leaves n in the accumulator, whatever follows.
  lemma {:induction false} DigitsParse(n: nat, t: Bytes)
    ensures ParseDigits(Decimal(n)[1..] + t, DigitValue(Decimal(n)[0])) == ParseDigits(t, n)
  {
    if n < 10 {
      assert Decimal(n)[1..] + t == t;
    } else {
      DigitsParse(n / 10, [Digit(n % 10)] + t);
      assert Decimal(n)[1..] + t == Decimal(n / 10)[1..] + ([Digit(n % 10)] + t);
      assert ([Digit(n % 10)] + t)[1..] == t;
    }
  }

  lemma NumberParses(n: nat, t: Bytes)
    requires NoDigitAhead(t)
    ensures ParseNumber(Decimal(n) + t) == Done(n, t)
  {
    var d := Decimal(n);
    assert (d + t)[1..] == d[1..] + t;
    DigitsParse(n, t);
    assert |d| == 1 && |d + t| > 1 ==> (d + t)[1] == t[0];
    if |d| > 1 { assert (d + t)[1] == d[1]; }
  }

  lemma EscapeParses(c: char, t: Bytes)
    ensures EscapeByte(c) != "" && EscapeByte(c)[0] != '\"'
    ensures ParseChar(EscapeByte(c) + t) == Done([c], t)
  {
    var s := EscapeByte(c) + t;
    if |EscapeByte(c)| == 1 {
      assert s[1..] == t;
    } else if |EscapeByte(c)| == 2 {
      assert s[1..] == [EscapeByte(c)[1]] + t;
      assert s[1..][1..] == t;
    } else {
      var hi, lo := HexDigit(c as int / 16), HexDigit(c as int % 16);
      assert s == ['\\', 'u', '0', '0', hi, lo] + t;
      assert s[1..][1..] == ['0', '0', hi, lo] + t;
      assert s[1..][1..][4..] == t;
      assert ParseHex4(s[1..][1..]) == Done(c as int, t);
    }
  }

  // Reassociation, away from the recursive definitions.
  lemma Headed(c: Bytes, a: Bytes, b: Bytes, t: Bytes)
    requires |c| == 1
    ensures (c + a + b + t)[0] == c[0]
    ensures (c + a + b + t)[1..] == a + (b + t)
    ensures a != "" ==> (c + a + b + t)[1] == a[0]
  {
  }

  lemma Joined(a: Bytes, b: Bytes, t: Bytes)
    ensures a + b + t == a + (b + t)
    ensures a != "" ==> (a + (b + t))[0] == a[0]
  {
  }

  lemma {:induction false} CharsParse(s: Bytes, t: Bytes)
    ensures ParseChars(Escape(s) + ("\"" + t)) == Done(s, t)
  {
    var closing := "\"" + t;
    if s == "" {
      assert Escape(s) + closing == closing;
      assert closing[1..] == t;
    } else {
      var tail := Escape(s[1..]) + closing;
      CharsParse(s[1..], t);
      EscapeParses(s[0], tail);
      Joined(EscapeByte(s[0]), Escape(s[1..]), closing);
      assert [s[0]] + s[1..] == s;
    }
  }

  lemma Unquoted(e: Bytes, t: Bytes)
    ensures ("\"" + e + "\"")[0] == '\"' && ("\"" + e + "\"" + t)[1..] == e + ("\"" + t)
  {
  }

  lemma QuoteParses(s: Bytes, t: Bytes)
    ensures Quote(s)[0] == '\"' && ParseChars((Quote(s) + t)[1..]) == Done(s, t)
  {
    CharsParse(s, t);
    Unquoted(Escape(s), t);
  }

  lemma {:induction false} EncodeParses(v: Value, t: Bytes)
    requires NoDigitAhead(t)
    ensures Encode(v) != "" && Encode(v)[0] != ']'
    ensures ParseValue(Encode(v) + t) == Done(v, t)
    decreases v, 1
  {
    match v
    case Null => assert ("null" + t)[4..] == t;
    case Bool(flag) =>
      assert ("true" + t)[4..] == t;
      assert ("false" + t)[5..] == t;
    case Number(n) => NumberParses(n, t);
    case String(text) => QuoteParses(text, t);
    case Array(items) => ArrayParses(items, t);
    case Object(fields) => ObjectParses(fields, t);
  }

  lemma {:induction false} ArrayParses(items: seq<Value>, t: Bytes)
    ensures Encode(Array(items))[0] == '['
    ensures ParseArray(Encode(Array(items)) + t) == Done(Array(items), t)
    decreases items, 0
  {
    var s := Encode(Array(items)) + t;
    if items == [] {
      assert s == "[]" + t && s[2..] == t;
    } else {
      var tail := EncodeItems(items[1..]) + t;
      ItemsParse(items[1..], t);
      EncodeParses(items[0], tail);
      Headed("[", Encode(items[0]), EncodeItems(items[1..]), t);
      assert [items[0]] + items[1..] == items;
    }
  }

  lemma {:induction false} ObjectParses(fields: seq<Field>, t: Bytes)
    ensures Encode(Object(fields))[0] == '{'
    ensures ParseObject(Encode(Object(fields)) + t) == Done(Object(fields), t)
    decreases fields, 3
  {
    var s := Encode(Object(fields)) + t;
    if fields == [] {
      assert s == "{}" + t && s[2..] == t;
    } else {
      var tail := EncodeFields(fields[1..]) + t;
      FieldsParse(fields[1..], t);
      FieldParses(fields[0], tail);
      Headed("{", EncodeField(fields[0]), EncodeFields(fields[1..]), t);
      assert [fields[0]] + fields[1..] == fields;
    }
  }

  lemma {:induction false} ItemsParse(items: seq<Value>, t: Bytes)
    ensures NoDigitAhead(EncodeItems(items) + t)
    ensures ParseItems(EncodeItems(items) + t) == Done(items, t)
    decreases items, 0
  {
    var s := EncodeItems(items) + t;
    if items == [] {
      assert s[1..] == t;
    } else {
      var tail := EncodeItems(items[1..]) + t;
      ItemsParse(items[1..], t);
      EncodeParses(items[0], tail);
      Headed(",", Encode(items[0]), EncodeItems(items[1..]), t);
      assert [items[0]] + items[1..] == items;
    }
  }

  lemma FieldJoined(a: Bytes, b: Bytes, t: Bytes)
    requires a != ""
    ensures a + ":" + b + t == a + (":" + (b + t))
    ensures (a + ":" + b)[0] == a[0] == (a + (":" + (b + t)))[0]
    ensures (":" + (b + t))[1..] == b + t
  {
  }

  lemma {:induction false} FieldParses(f: Field, t: Bytes)
    requires NoDigitAhead(t)
    ensures EncodeField(f)[0] == '\"'
    ensures ParseField(EncodeField(f) + t) == Done(f, t)
    decreases f, 2
  {
    var rest := ":" + (Encode(f.value) + t);
    QuoteParses(f.key, rest);
    EncodeParses(f.value, t);
    FieldJoined(Quote(f.key), Encode(f.value), t);
  }

  lemma {:induction false} FieldsParse(fields: seq<Field>, t: Bytes)
    ensures NoDigitAhead(EncodeFields(fields) + t)
    ensures ParseFields(EncodeFields(fields) + t) == Done(fields, t)
    decreases fields, 0
  {
    var s := EncodeFields(fields) + t;
    if fields == [] {
      assert s[1..] == t;
    } else {
      var tail := EncodeFields(fields[1..]) + t;
      FieldsParse(fields[1..], t);
      FieldParses(fields[0], tail);
      Headed(",", EncodeField(fields[0]), EncodeFields(fields[1..]), t);
      assert [fields[0]] + fields[1..] == fields;
    }
  }

  /** Every document is read back exactly, escapes included. */
  lemma RoundTrip(v: Value)
    ensures Parse(Encode(v)) == Some(v)
  {
    EncodeParses(v, "");
    assert Encode(v) + "" == Encode(v);
  }

  /** Different documents never share their bytes. */
  lemma EncodeInjective(u: Value, v: Value)
    ensures Encode(u) == Encode(v) <==> u == v
  {
    RoundTrip(u);
    RoundTrip(v);
  }

  // ---------- No control byte is ever written ----------

  predicate Printable(s: Bytes) {
    forall i :: 0 <= i < |s| ==> s[i] >= ' '
  }

  lemma {:induction false} DecimalPrintable(n: nat)
    ensures Printable(Decimal(n))
  {
    if n >= 10 { DecimalPrintable(n / 10); }
  }

  lemma {:induction false} QuotePrintable(s: Bytes)
    ensures Printable(Escape(s)) && Printable(Quote(s))
  {
    if s != "" { QuotePrintable(s[1..]); }
  }

  /** No encoded document contains a raw control byte, in particular no newline. */
  lemma {:induction false} EncodePrintable(v: Value)
    ensures Printable(Encode(v))
    decreases v, 1
  {
    match v
    case Null =>
    case Bool(_) =>
    case Number(n) => DecimalPrintable(n);
    case String(text) => QuotePrintable(text);
    case Array(items) =>
      if items != [] { EncodePrintable(items[0]); ItemsPrintable(items[1..]); }
    case Object(fields) =>
      if fields != [] {
        QuotePrintable(fields[0].key);
        EncodePrintable(fields[0].value);
        FieldsPrintable(fields[1..]);
      }
  }

  lemma {:induction false} ItemsPrintable(items: seq<Value>)
    ensures Printable(EncodeItems(items))
    decreases items, 0
  {
    if items != [] { EncodePrintable(items[0]); ItemsPrintable(items[1..]); }
  }

  lemma {:induction false} FieldsPrintable(fields: seq<Field>)
    ensures Printable(EncodeFields(fields))
    decreases fields, 0
  {
    if fields != [] {
      QuotePrintable(fields[0].key);
      EncodePrintable(fields[0].value);
      FieldsPrintable(fields[1..]);
    }
  }
}
