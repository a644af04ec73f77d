/** Rendering of query results: one `YYYY-MM-DD: message` line per entry, each newline-terminated. */
module Presenter {
  import opened Calendar
  import opened DateResolver
  import opened QueryEngine

  predicate AllDated(entries: seq<LogEntry>) {
    forall i :: 0 <= i < |entries| ==> IsDay(entries[i].logDate)
  }

  /**
   * The line of a message logged on `day`: ten characters of date, a colon and
   * a space, then the message itself.
   */
  function LineOf(day: int, message: string): (line: string)
    requires IsDay(day)
    ensures |line| == 12 + |message|
    ensures line[10..12] == ": " && line[12..] == message
  {
    FormatIso(FromOrdinal(day)) + ": " + message
  }

  /** The ten date characters of a line read back as the day it was logged on. */
  lemma LineOfReadsBack(day: int, message: string)
    requires IsDay(day)
    ensures ParseIso(LineOf(day, message)[..10]).Some?
    ensures ToOrdinal(ParseIso(LineOf(day, message)[..10]).value) == day
  {
    var d := FromOrdinal(day);
    assert LineOf(day, message)[..10] == FormatIso(d);
    ParseFormat(d);
  }

  /** The line of an entry: its date and its message. */
  function RenderLine(e: LogEntry): string
    requires IsDay(e.logDate)
  {
    LineOf(e.logDate, e.message)
  }

  /** The line of an entry dated d starts with d written as `YYYY-MM-DD`. */
  lemma RenderLineOfDate(e: LogEntry, d: Date)
    requires IsValid(d) && e.logDate == ToOrdinal(d)
    ensures IsDay(e.logDate) && RenderLine(e) == FormatIso(d) + ": " + e.message
  {
    FromToOrdinal(d);
  }

  function Lines(entries: seq<LogEntry>): seq<string>
    requires AllDated(entries)
  {
    seq(|entries|, i requires 0 <= i < |entries| && AllDated(entries) => RenderLine(entries[i]))
  }

  function Join(parts: seq<string>, sep: string): string {
    if |parts| == 0 then ""
    else if |parts| == 1 then parts[0]
    else parts[0] + sep + Join(parts[1..], sep)
  }

  /**
   * The output of `show`: each entry's line followed by a newline. No entries,
   * no output; otherwise the lines joined by newlines, plus a trailing newline.
   */
  function Render(entries: seq<LogEntry>): (out: string)
    requires AllDated(entries)
    ensures entries == [] ==> out == ""
    ensures entries != [] ==> out == Join(Lines(entries), "\n") + "\n"
  {
    if entries == [] then ""
    else
      var line := RenderLine(entries[0]);
      var rest := Render(entries[1..]);
      assert |entries| > 1 ==> Lines(entries)[1..] == Lines(entries[1..]);
      assert |entries| > 1 ==>
        Join(Lines(entries), "\n") == line + "\n" + Join(Lines(entries[1..]), "\n");
      AppendAssoc(line + "\n", Join(Lines(entries[1..]), "\n"), "\n");
      line + "\n" + rest
  }

  /** String concatenation is associative; a separate step keeps the render proofs small. */
  lemma AppendAssoc(x: string, y: string, z: string)
    ensures x + (y + z) == (x + y) + z
  {
  }

  /** Rendering a concatenation renders each part in turn. */
  lemma {:induction false} RenderAppend(a: seq<LogEntry>, b: seq<LogEntry>)
    requires AllDated(a) && AllDated(b)
    ensures AllDated(a + b) && Render(a + b) == Render(a) + Render(b)
  {
    var ab := a + b;
    assert AllDated(ab) by {
      forall i | 0 <= i < |ab| ensures IsDay(ab[i].logDate) {
        if i < |a| {
          assert ab[i] == a[i];
        } else {
          assert ab[i] == b[i - |a|];
        }
      }
    }
    if a == [] {
      assert ab == b;
    } else {
      assert ab[0] == a[0] && ab[1..] == a[1..] + b;
      RenderAppend(a[1..], b);
      var head := RenderLine(a[0]) + "\n";
      assert Render(ab) == head + Render(a[1..] + b);
      assert Render(a) == head + Render(a[1..]);
      AppendAssoc(head, Render(a[1..]), Render(b));
    }
  }

  /** One entry renders as its line and a newline. */
  lemma RenderSingle(e: LogEntry)
    requires IsDay(e.logDate)
    ensures AllDated([e]) && Render([e]) == RenderLine(e) + "\n"
  {
    assert [e][1..] == [];
  }

  /** The lines of one entry. */
  lemma LinesOfOne(a: LogEntry)
    requires IsDay(a.logDate)
    ensures AllDated([a]) && Lines([a]) == [RenderLine(a)]
  {
  }

  /** The lines of two entries, in order. */
  lemma LinesOfTwo(a: LogEntry, b: LogEntry)
    requires IsDay(a.logDate) && IsDay(b.logDate)
    ensures AllDated([a, b]) && Lines([a, b]) == [RenderLine(a), RenderLine(b)]
  {
    LinesOfOne(a);
    LinesSnoc([a], b);
    assert [a] + [b] == [a, b];
  }

  /** The lines of three entries, in order. */
  lemma LinesOfThree(a: LogEntry, b: LogEntry, c: LogEntry)
    requires IsDay(a.logDate) && IsDay(b.logDate) && IsDay(c.logDate)
    ensures AllDated([a, b, c]) && Lines([a, b, c]) == [RenderLine(a), RenderLine(b), RenderLine(c)]
  {
    LinesOfTwo(a, b);
    LinesSnoc([a, b], c);
    assert [a, b] + [c] == [a, b, c];
  }

  /** The lines of entries with one more at the end: the earlier lines, then the new one. */
  lemma LinesSnoc(s: seq<LogEntry>, e: LogEntry)
    requires AllDated(s) && IsDay(e.logDate)
    ensures AllDated(s + [e]) && Lines(s + [e]) == Lines(s) + [RenderLine(e)]
  {
    var t := s + [e];
    assert AllDated(t) by {
      forall i | 0 <= i < |t| ensures IsDay(t[i].logDate) {
        if i < |s| {
          assert t[i] == s[i];
        }
      }
    }
  }
}
