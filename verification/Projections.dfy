/** The published projection of a log: one readable line per entry, in chain order. */
module Projections {
  import opened Wrappers
  import opened Json
  import opened Events
  import opened Ledger
  import opened Storage
  import opened Runs
  import opened Logger
  import opened Deployment
  import opened Tables

  // The text before each newline, which must end the text.
  function TextLines(text: Bytes): Option<seq<Bytes>> {
    var parts := Split(text, '\n');
    if parts[|parts| - 1] == "" then Some(parts[..|parts| - 1]) else None
  }

  // Exactly one line for each entry, in order, that reads as it.
  ghost predicate PublishedBy(read: Bytes -> Option<Entry>, text: Bytes, es: seq<Entry>) {
    match TextLines(text)
    case None => false
    case Some(lines) => |lines| == |es| && forall i :: 0 <= i < |es| ==> read(lines[i]) == Some(es[i])
  }

  ghost predicate Publishes(text: Bytes, es: seq<Entry>) {
    PublishedBy(ReadEntry, text, es)
  }

  lemma {:induction false} SplitSnoc(s: Bytes, line: Bytes)
    requires '\n' !in line
    ensures var parts := Split(s, '\n');
      parts[|parts| - 1] == "" ==> Split(s + line + "\n", '\n') == parts[..|parts| - 1] + [line] + [""]
    decreases s
  {
    var parts := Split(s, '\n');
    var whole := s + line + "\n";
    if s == "" {
      assert whole == line + ['\n'] + "";
      SplitAt(line, '\n', "");
    } else {
      assert whole[1..] == s[1..] + line + "\n";
      SplitSnoc(s[1..], line);
      var rest := Split(s[1..], '\n');
      if s[0] == '\n' {
        assert parts[..|parts| - 1] == [""] + rest[..|rest| - 1];
      } else if parts[|parts| - 1] == "" {
        assert |rest| > 1;
        assert parts[..|parts| - 1] == [[s[0]] + rest[0]] + rest[1..|rest| - 1];
      }
    }
  }

  lemma PublishOneMore(read: Bytes -> Option<Entry>, text: Bytes, es: seq<Entry>, line: Bytes, e: Entry)
    requires PublishedBy(read, text, es) && read(line) == Some(e) && '\n' !in line
    ensures PublishedBy(read, text + line + "\n", es + [e])
  {
    SplitSnoc(text, line);
    var lines := TextLines(text).value;
    var parts := Split(text + line + "\n", '\n');
    assert parts == lines + [line] + [""];
    assert parts[..|parts| - 1] == lines + [line];
  }

  // Entries are written as single lines that read back.
  ghost predicate Legible(c: Context, read: Bytes -> Option<Entry>) {
    forall e :: read(c.encodeEntry(e)) == Some(e) && '\n' !in c.encodeEntry(e)
  }

  lemma {:induction false} LegibleProjection(c: Context, read: Bytes -> Option<Entry>, es: seq<Entry>)
    requires Legible(c, read)
    ensures PublishedBy(read, Projection(c, es), es)
  {
    if es != [] {
      var n := |es| - 1;
      LegibleProjection(c, read, es[..n]);
      PublishOneMore(read, Projection(c, es[..n]), es[..n], c.encodeEntry(es[n]), es[n]);
      assert es[..n] + [es[n]] == es;
    }
  }

  /** A projection has exactly one newline-terminated line per entry, and line i reads as entry i. */
  lemma ProjectionPublishes(l: Library, es: seq<Entry>)
    ensures Publishes(Projection(ContextOf(l), es), es)
  {
    var c := ContextOf(l);
    forall e ensures ReadEntry(c.encodeEntry(e)) == Some(e) && '\n' !in c.encodeEntry(e) { EntryRoundTrip(e); }
    LegibleProjection(c, ReadEntry, es);
  }

  /** From an empty file, after every run: each log that is not waiting has a file that publishes exactly its
      entries. */
  lemma EveryProjection(l: Library, interval: Interval, ops: seq<Op>, log: Bytes)
    requires Genuine(l)
    ensures var t := Run(Setup(ContextOf(l), interval, true), System("", EMPTY, true, {}, map[]), ops);
      log in t.index.logs && log !in t.dirty ==> log in t.files && Publishes(t.files[log], EntriesOf(t.index, log))
  {
    var u, s := Setup(ContextOf(l), interval, true), System("", EMPTY, true, {}, map[]);
    ContextLawful(l);
    FreshStart(u);
    RunConsistent(u, s, ops);
    ProjectionPublishes(l, EntriesOf(Run(u, s, ops).index, log));
  }
}
