/** Tab-separated state tables: one header line, then one line per row. */
module Tables {

  // ---------- Identifiers ----------

  predicate IdChar(c: char) {
    'a' <= c <= 'z' || 'A' <= c <= 'Z' || '0' <= c <= '9' || c == '_' || c == '.' || c == '-'
  }

  predicate ValidId(s: string) {
    s != "" && forall i :: 0 <= i < |s| ==> IdChar(s[i])
  }

  // ---------- Splitting and joining ----------

  predicate Free(s: string, c: char) {
    forall i :: 0 <= i < |s| ==> s[i] != c
  }

  function Split(s: string, sep: char): (parts: seq<string>)
    ensures |parts| > 0
    ensures forall i :: 0 <= i < |parts| ==> Free(parts[i], sep)
  {
    if s == "" then [""]
    else
      var rest := Split(s[1..], sep);
      if s[0] == sep then [""] + rest else [[s[0]] + rest[0]] + rest[1..]
  }

  function Join(parts: seq<string>, sep: char): string {
    if parts == [] then ""
    else if |parts| == 1 then parts[0]
    else parts[0] + [sep] + Join(parts[1..], sep)
  }

  lemma {:induction false} SplitFree(s: string, sep: char)
    requires Free(s, sep)
    ensures Split(s, sep) == [s]
  {
    if s != "" {
      SplitFree(s[1..], sep);
      assert [s[0]] + s[1..] == s;
    }
  }

  lemma {:induction false} SplitAt(a: string, sep: char, b: string)
    requires Free(a, sep)
    ensures Split(a + [sep] + b, sep) == [a] + Split(b, sep)
  {
    var s := a + [sep] + b;
    if a == "" {
      assert s[1..] == b;
    } else {
      SplitAt(a[1..], sep, b);
      assert s[1..] == a[1..] + [sep] + b;
      assert [a[0]] + a[1..] == a;
    }
  }

  lemma {:induction false} SplitJoin(parts: seq<string>, sep: char)
    requires parts != [] && forall i :: 0 <= i < |parts| ==> Free(parts[i], sep)
    ensures Split(Join(parts, sep), sep) == parts
  {
    if |parts| == 1 {
      SplitFree(parts[0], sep);
    } else {
      SplitJoin(parts[1..], sep);
      SplitAt(parts[0], sep, Join(parts[1..], sep));
    }
  }

  /** The parts between separators, joined again, give the text. */
  lemma {:induction false} JoinSplit(s: string, sep: char)
    ensures Join(Split(s, sep), sep) == s
  {
    if s != "" {
      JoinSplit(s[1..], sep);
      var parts, rest := Split(s, sep), Split(s[1..], sep);
      assert s == [s[0]] + s[1..];
      if s[0] == sep {
        assert parts[1..] == rest;
      } else if |rest| > 1 {
        assert parts[1..] == rest[1..];
        assert parts[0] + [sep] + Join(rest[1..], sep) == [s[0]] + (rest[0] + [sep] + Join(rest[1..], sep));
      }
    }
  }

  // ---------- Trimming ----------

  predicate Whitespace(c: char) {
    9 <= c as int <= 13 || c as int in {0x20, 0x85, 0xA0, 0x1680, 0x2028, 0x2029, 0x202F, 0x205F, 0x3000}
    || 0x2000 <= c as int <= 0x200A
  }

  function Trim(s: string): string {
    if s == "" then ""
    else if Whitespace(s[0]) then Trim(s[1..])
    else if Whitespace(s[|s| - 1]) then Trim(s[..|s| - 1])
    else s
  }

  /** Trimming cuts whitespace off both ends, as much as there is. */
  lemma {:induction false} TrimExact(s: string) returns (a: nat, b: nat)
    ensures a <= b <= |s| && Trim(s) == s[a..b]
    ensures forall i :: 0 <= i < |s| && !(a <= i < b) ==> Whitespace(s[i])
    ensures a < b ==> !Whitespace(s[a]) && !Whitespace(s[b - 1])
  {
    a, b := 0, |s|;
    if s == "" {
    } else if Whitespace(s[0]) {
      a, b := TrimExact(s[1..]);
      assert s[1..][a..b] == s[a + 1..b + 1];
      assert forall i :: 0 < i < |s| ==> s[i] == s[1..][i - 1];
      a, b := a + 1, b + 1;
    } else if Whitespace(s[|s| - 1]) {
      a, b := TrimExact(s[..|s| - 1]);
      assert s[..|s| - 1][a..b] == s[a..b];
      assert forall i :: 0 <= i < |s| - 1 ==> s[i] == s[..|s| - 1][i];
    }
  }

  // ---------- Lines ----------

  // Lines end at a newline; a carriage return right before it is dropped, and a
  // last line may lack its newline.
  function Lines(text: string): seq<string> {
    if text == "" then []
    else LinesFrom(text, "")
  }

  function DropReturn(line: string): string {
    if line != "" && line[|line| - 1] == '\r' then line[..|line| - 1] else line
  }

  function LinesFrom(text: string, line: string): seq<string> {
    if text == "" then [line]
    else if text[0] == '\n' then [DropReturn(line)] + Lines(text[1..])
    else LinesFrom(text[1..], line + [text[0]])
  }

  function Text(rows: seq<string>): string {
    if rows == [] then "" else rows[0] + "\n" + Text(rows[1..])
  }

  predicate OneLine(s: string) {
    Free(s, '\n') && Free(s, '\r')
  }

  // Text that survives as one line: no newline, and no carriage return at its end.
  predicate LineSafe(s: string) {
    Free(s, '\n') && (s == "" || s[|s| - 1] != '\r')
  }

  lemma {:induction false} LineRead(row: string, rest: string, line: string)
    requires Free(row, '\n')
    ensures LinesFrom(row + "\n" + rest, line) == [DropReturn(line + row)] + Lines(rest)
  {
    var s := row + "\n" + rest;
    if row == "" {
      assert s[1..] == rest;
      assert line + row == line;
    } else {
      LineRead(row[1..], rest, line + [row[0]]);
      assert s[1..] == row[1..] + "\n" + rest;
      assert line + [row[0]] + row[1..] == line + row;
    }
  }

  lemma {:induction false} LinesTextRows(rows: seq<string>)
    requires forall i :: 0 <= i < |rows| ==> Free(rows[i], '\n')
    ensures |Lines(Text(rows))| == |rows|
    ensures forall i :: 0 <= i < |rows| ==> Lines(Text(rows))[i] == DropReturn(rows[i])
  {
    if rows != [] {
      LinesTextRows(rows[1..]);
      LineRead(rows[0], Text(rows[1..]), "");
      assert "" + rows[0] == rows[0];
    }
  }

  /** Rows that survive as lines are read back exactly. */
  lemma LinesText(rows: seq<string>)
    requires forall i :: 0 <= i < |rows| ==> LineSafe(rows[i])
    ensures Lines(Text(rows)) == rows
  {
    LinesTextRows(rows);
  }

  // What follows a finished line is read on its own.
  lemma {:induction false} LinesFromThen(s: string, rest: string, line: string)
    ensures LinesFrom(s + "\n" + rest, line) == LinesFrom(s + "\n", line) + Lines(rest)
    decreases |s|
  {
    var whole, part := s + "\n" + rest, s + "\n";
    if s == "" {
      assert whole[0] == '\n' && whole[1..] == rest && part[1..] == "";
    } else {
      assert whole[0] == s[0] == part[0] && whole[1..] == s[1..] + "\n" + rest && part[1..] == s[1..] + "\n";
      if s[0] == '\n' {
        LinesFromThen(s[1..], rest, "");
        assert [DropReturn(line)] + (LinesFrom(s[1..] + "\n", "") + Lines(rest)) ==
          [DropReturn(line)] + LinesFrom(s[1..] + "\n", "") + Lines(rest);
      } else {
        LinesFromThen(s[1..], rest, line + [s[0]]);
      }
    }
  }

  lemma RowThen(row: string, text: string, rest: string)
    requires LineSafe(row)
    ensures Lines(row + "\n" + text + rest) == [row] + Lines(text + rest)
  {
    assert row + "\n" + text + rest == row + "\n" + (text + rest);
    LineRead(row, text + rest, "");
    assert "" + row == row;
  }

  lemma HeadThen(rows: seq<string>, more: seq<string>)
    requires rows != []
    ensures [rows[0]] + (rows[1..] + more) == rows + more
  {
  }

  lemma {:induction false} LinesTextThen(rows: seq<string>, rest: string)
    requires forall i :: 0 <= i < |rows| ==> LineSafe(rows[i])
    ensures Lines(Text(rows) + rest) == rows + Lines(rest)
  {
    if rows == [] {
      assert Text(rows) + rest == rest && rows + Lines(rest) == Lines(rest);
    } else {
      RowThen(rows[0], Text(rows[1..]), rest);
      LinesTextThen(rows[1..], rest);
      HeadThen(rows, Lines(rest));
    }
  }

  lemma {:induction false} TextSnoc(rows: seq<string>, row: string)
    ensures Text(rows + [row]) == Text(rows) + row + "\n"
  {
    if rows == [] {
      assert [row][1..] == [];
      assert row + "\n" + "" == "" + row + "\n";
    } else {
      assert (rows + [row])[1..] == rows[1..] + [row];
      TextSnoc(rows[1..], row);
    }
  }

  lemma {:induction false} TextAppend(rows: seq<string>, more: seq<string>)
    ensures Text(rows + more) == Text(rows) + Text(more)
  {
    if rows == [] {
      assert rows + more == more;
    } else {
      assert (rows + more)[1..] == rows[1..] + more;
      TextAppend(rows[1..], more);
      assert rows[0] + "\n" + (Text(rows[1..]) + Text(more)) == rows[0] + "\n" + Text(rows[1..]) + Text(more);
    }
  }

  // No line that is read contains a newline.
  lemma {:induction false} LinesNewlineFree(text: string)
    ensures forall i :: 0 <= i < |Lines(text)| ==> Free(Lines(text)[i], '\n')
    decreases |text|, 1
  {
    if text != "" { LinesFromNewlineFree(text, ""); }
  }

  lemma {:induction false} LinesFromNewlineFree(text: string, line: string)
    requires Free(line, '\n')
    ensures forall i :: 0 <= i < |LinesFrom(text, line)| ==> Free(LinesFrom(text, line)[i], '\n')
    decreases |text|, 0
  {
    if text != "" {
      if text[0] == '\n' { LinesNewlineFree(text[1..]); } else { LinesFromNewlineFree(text[1..], line + [text[0]]); }
    }
  }

  // ---------- Rows of a fixed number of fields ----------

  // The fields of a line, cut or padded to n.
  function Fields(line: string, n: nat): (fs: seq<string>)
    ensures |fs| == n
  {
    var parts := Split(line, '\t');
    seq(n, i requires 0 <= i < n => if i < |parts| then parts[i] else "")
  }

  predicate TabFree(fs: seq<string>) {
    forall i :: 0 <= i < |fs| ==> Free(fs[i], '\t')
  }

  /** A row reads back as it was written exactly when no field contains a tab. */
  lemma RowExact(fs: seq<string>)
    requires fs != []
    ensures Fields(Join(fs, '\t'), |fs|) == fs <==> TabFree(fs)
  {
    var parts := Split(Join(fs, '\t'), '\t');
    if TabFree(fs) {
      SplitJoin(fs, '\t');
    } else {
      var i :| 0 <= i < |fs| && !Free(fs[i], '\t');
      assert Fields(Join(fs, '\t'), |fs|)[i] != fs[i];
    }
  }

  lemma {:induction false} JoinedOneLine(fs: seq<string>)
    requires forall i :: 0 <= i < |fs| ==> OneLine(fs[i])
    ensures OneLine(Join(fs, '\t'))
  {
    if |fs| > 1 { JoinedOneLine(fs[1..]); }
  }

  // Pieces of a line without breaks have none either.
  lemma {:induction false} SplitOneLine(s: string, sep: char)
    requires OneLine(s)
    ensures forall i :: 0 <= i < |Split(s, sep)| ==> OneLine(Split(s, sep)[i])
  {
    if s != "" { SplitOneLine(s[1..], sep); }
  }

  // A leading tab-free field is never disturbed by what follows it.
  lemma FirstField(fs: seq<string>, n: nat)
    requires n > 0 && fs != [] && Free(fs[0], '\t')
    ensures Fields(Join(fs, '\t'), n)[0] == fs[0]
  {
    if |fs| == 1 { SplitFree(fs[0], '\t'); } else { SplitAt(fs[0], '\t', Join(fs[1..], '\t')); }
  }
}
