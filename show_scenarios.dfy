/**
 * The scenarios of the `show` command's tests, stated as lemmas about the
 * model. Dates of the relative scenarios are measured from an arbitrary
 * `today` far enough from 0001-01-01 for "3 days ago" to exist.
 */
module ShowScenarios {
  import opened Results
  import opened Calendar
  import opened Text
  import opened DateResolver
  import opened FilterBuilder
  import opened QueryEngine
  import opened Presenter
  import opened ShowCommand

  /** A `today` from which "3 days ago" is still a representable date. */
  predicate FarEnough(today: int) {
    IsDay(today) && today > 3
  }

  /** "2 days ago" and "3 days ago", as the range test writes them. */
  lemma SmallDaysAgo(today: int)
    requires FarEnough(today)
    ensures Resolve("2 days ago", today) == Ok(today - 2)
    ensures Resolve("3 days ago", today) == Ok(today - 3)
  {
    assert "2" + DaysAgo == "2 days ago" && Value("2") == 2 by {}
    assert "3" + DaysAgo == "3 days ago" && Value("3") == 3 by {}
    ResolveAgoToken("2", today);
    ResolveAgoToken("3", today);
  }

  /** The date of the first two tests, and how it is written. */
  lemma May12Spelling()
    ensures IsValid(Date(2024, 5, 12)) && FormatIso(Date(2024, 5, 12)) == "2024-05-12"
  {
  }

  /** The token of the `--on YYYY-MM-DD` test reads as the date 2024-05-14. */
  lemma May14Spelling()
    ensures ParseIso("2024-05-14") == Some(Date(2024, 5, 14))
  {
    assert IsValid(Date(2024, 5, 14)) && FormatIso(Date(2024, 5, 14)) == "2024-05-14" by {}
    ParseFormat(Date(2024, 5, 14));
  }

  /** The log of the first test: three tasks on one day, inserted in order. */
  function TasksLog(day: int): (log: seq<LogEntry>)
    requires IsDay(day)
    ensures ValidStore(log)
    ensures log == [LogEntry(1, "Task 1", day), LogEntry(2, "Task 2", day), LogEntry(3, "Task 3", day)]
  {
    BulkCreate([("Task 1", day), ("Task 2", day), ("Task 3", day)], 1)
  }

  /**
   * `show` with no option lists the three tasks in insertion order, each line
   * starting with their date (2024-05-12 in the test; any date here).
   */
  lemma ShowAll(d: Date, today: int)
    requires IsValid(d) && IsDay(today)
    ensures IsDay(ToOrdinal(d))
    ensures var log := TasksLog(ToOrdinal(d));
      var iso := FormatIso(d);
      Show(NoOptions, today, log) == Ok(log)
      && Run(NoOptions, today, log)
        == Outcome(0, Join([iso + ": " + "Task 1", iso + ": " + "Task 2", iso + ": " + "Task 3"], "\n") + "\n")
  {
    OrdinalInRange(d);
    var log := TasksLog(ToOrdinal(d));
    var iso := FormatIso(d);
    assert Build(NoOptions, today) == Ok(NoFilter);
    QueryNoFilter(log);
    RenderLineOfDate(log[0], d);
    RenderLineOfDate(log[1], d);
    RenderLineOfDate(log[2], d);
    LinesOfThree(log[0], log[1], log[2]);
    assert log == [log[0], log[1], log[2]];
    RunPrintsLines(NoOptions, today, log, log, [iso + ": " + "Task 1", iso + ": " + "Task 2", iso + ": " + "Task 3"]);
  }

  /** The log of the `--contains` test: three messages on one day, inserted in order. */
  function MessagesLog(day: int, m1: string, m2: string, m3: string): (log: seq<LogEntry>)
    requires IsDay(day)
    ensures ValidStore(log)
    ensures log == [LogEntry(1, m1, day), LogEntry(2, m2, day), LogEntry(3, m3, day)]
  {
    BulkCreate([(m1, day), (m2, day), (m3, day)], 1)
  }

  /** "fix" occurs in the first message of the `--contains` test. */
  lemma FixInFirst()
    ensures Contains("Bug fix in the authentication", "fix")
  {
    ContainsPart("Bug ", "fix", " in the authentication");
  }

  /** "fix" does not occur in the second message: it has no 'x'. */
  lemma FixNotInSecond()
    ensures !Contains("Develop a fantastic feature", "fix")
  {
    MissingCharRefutes("Develop a fantastic feature", "fix", 2);
  }

  /** "fix" occurs in the third message. */
  lemma FixInThird()
    ensures Contains("another bug fix", "fix")
  {
    var hay := "another bug fix";
    assert hay[12..] == "fix";
    assert OccursAt(hay, "fix", 12);
  }

  /**
   * `--contains` with a substring of the first and third messages but not of
   * the second keeps the first and third entries, in that order, and prints
   * their lines; "fix" is such a substring of the test's messages (FixInFirst,
   * FixNotInSecond, FixInThird).
   */
  lemma ShowContains(d: Date, today: int, m1: string, m2: string, m3: string, needle: string)
    requires IsValid(d) && IsDay(today)
    requires Contains(m1, needle) && !Contains(m2, needle) && Contains(m3, needle)
    ensures IsDay(ToOrdinal(d))
    ensures var log := MessagesLog(ToOrdinal(d), m1, m2, m3);
      var opts := Options(None, None, None, Some(needle));
      Show(opts, today, log) == Ok([log[0], log[2]])
      && Run(opts, today, log) == Outcome(0, Join([FormatIso(d) + ": " + m1, FormatIso(d) + ": " + m3], "\n") + "\n")
  {
    OrdinalInRange(d);
    var log := MessagesLog(ToOrdinal(d), m1, m2, m3);
    var opts := Options(None, None, None, Some(needle));
    var f := FilterSpec(None, None, None, Some(needle));
    assert Build(opts, today) == Ok(f);
    QueryIsTheOrderedMatches(f, log, [log[0], log[2]]);
    RenderLineOfDate(log[0], d);
    RenderLineOfDate(log[2], d);
    LinesOfTwo(log[0], log[2]);
    RunPrintsLines(opts, today, log, [log[0], log[2]], [FormatIso(d) + ": " + m1, FormatIso(d) + ": " + m3]);
  }

  /** The log of the `--on YYYY-MM-DD` test: one entry on each of three days. */
  function SpreadLog(first: int, second: int, third: int): (log: seq<LogEntry>)
    requires IsDay(first) && IsDay(second) && IsDay(third)
    ensures ValidStore(log)
    ensures log == [LogEntry(1, "Bug fix in the authentication", first), LogEntry(2, "Develop a fantastic feature", second),
                    LogEntry(3, "another bug fix", third)]
  {
    BulkCreate([("Bug fix in the authentication", first), ("Develop a fantastic feature", second),
                ("another bug fix", third)], 1)
  }

  /** Distinct dates have distinct, representable day numbers. */
  lemma DistinctDays(a: Date, b: Date)
    requires IsValid(a) && IsValid(b) && a != b
    ensures IsDay(ToOrdinal(a)) && IsDay(ToOrdinal(b)) && ToOrdinal(a) != ToOrdinal(b)
  {
    OrdinalInRange(a);
    OrdinalInRange(b);
    OrdinalOrder(a, b);
  }

  /** Filtering by the third entry's day keeps only that entry when the other two are of other days. */
  lemma QueryOnThirdDay(first: int, second: int, third: int)
    requires IsDay(first) && IsDay(second) && IsDay(third)
    requires first != third && second != third
    ensures var log := SpreadLog(first, second, third);
      Query(FilterSpec(Some(third), None, None, None), log) == [log[2]]
  {
    var log := SpreadLog(first, second, third);
    QueryIsTheOrderedMatches(FilterSpec(Some(third), None, None, None), log, [log[2]]);
  }

  /**
   * `--on` with a `YYYY-MM-DD` token naming the third entry's date ("2024-05-14"
   * in the test) keeps that one entry, when the other two are of other dates,
   * and prints its line, which starts with the token itself.
   */
  lemma ShowOnSpecificDate(d1: Date, d2: Date, d3: Date, token: string, today: int)
    requires IsValid(d1) && IsValid(d2) && IsDay(today)
    requires ParseIso(token) == Some(d3) && d1 != d3 && d2 != d3
    ensures IsDay(ToOrdinal(d1)) && IsDay(ToOrdinal(d2)) && IsDay(ToOrdinal(d3))
    ensures var log := SpreadLog(ToOrdinal(d1), ToOrdinal(d2), ToOrdinal(d3));
      var opts := Options(Some(token), None, None, None);
      Show(opts, today, log) == Ok([log[2]])
      && Run(opts, today, log) == Outcome(0, Join([token + ": " + "another bug fix"], "\n") + "\n")
  {
    DistinctDays(d1, d3);
    DistinctDays(d2, d3);
    var log := SpreadLog(ToOrdinal(d1), ToOrdinal(d2), ToOrdinal(d3));
    var opts := Options(Some(token), None, None, None);
    assert Build(opts, today) == Ok(FilterSpec(Some(ToOrdinal(d3)), None, None, None));
    QueryOnThirdDay(ToOrdinal(d1), ToOrdinal(d2), ToOrdinal(d3));
    FormatParse(token);
    RenderLineOfDate(log[2], d3);
    LinesOfOne(log[2]);
    RunPrintsLines(opts, today, log, [log[2]], [token + ": " + "another bug fix"]);
  }

  /** The log of the `--on yesterday` test: one entry today, one yesterday. */
  function TwoDayLog(today: int): (log: seq<LogEntry>)
    requires FarEnough(today)
    ensures ValidStore(log)
    ensures log == [LogEntry(1, "Bug fix in the authentication", today), LogEntry(2, "another bug fix", today - 1)]
  {
    BulkCreate([("Bug fix in the authentication", today), ("another bug fix", today - 1)], 1)
  }

  /** `--on yesterday` keeps yesterday's entry, printed with yesterday's date. */
  lemma ShowOnYesterday(today: int)
    requires FarEnough(today)
    ensures var log := TwoDayLog(today);
      var opts := Options(Some("yesterday"), None, None, None);
      Show(opts, today, log) == Ok([log[1]])
      && Run(opts, today, log) == Outcome(0, Join([LineOf(today - 1, "another bug fix")], "\n") + "\n")
  {
    var log := TwoDayLog(today);
    var opts := Options(Some("yesterday"), None, None, None);
    YesterdayIsOneDayAgo(today);
    var f := FilterSpec(Some(today - 1), None, None, None);
    assert Build(opts, today) == Ok(f);
    QueryIsTheOrderedMatches(f, log, [log[1]]);
    LinesOfOne(log[1]);
    RunPrintsLines(opts, today, log, [log[1]], [LineOf(today - 1, "another bug fix")]);
  }

  /** The log of the `--since` and `--until` tests: entries two days ago, yesterday and today. */
  function ThreeDayLog(today: int): (log: seq<LogEntry>)
    requires FarEnough(today)
    ensures ValidStore(log)
    ensures log == [LogEntry(1, "Mentor a new developer", today - 2), LogEntry(2, "another bug fix", today - 1),
                    LogEntry(3, "Bug fix in the authentication", today)]
  {
    BulkCreate([("Mentor a new developer", today - 2), ("another bug fix", today - 1),
                ("Bug fix in the authentication", today)], 1)
  }

  /** `--since yesterday` keeps yesterday's and today's entries, in that order. */
  lemma ShowSince(today: int)
    requires FarEnough(today)
    ensures var log := ThreeDayLog(today);
      var opts := Options(None, Some("yesterday"), None, None);
      Show(opts, today, log) == Ok([log[1], log[2]])
      && Run(opts, today, log) == Outcome(0, Join([LineOf(today - 1, "another bug fix"),
                                                   LineOf(today, "Bug fix in the authentication")], "\n") + "\n")
  {
    var log := ThreeDayLog(today);
    var opts := Options(None, Some("yesterday"), None, None);
    YesterdayIsOneDayAgo(today);
    var f := FilterSpec(None, Some(today - 1), None, None);
    assert Build(opts, today) == Ok(f);
    QueryIsTheOrderedMatches(f, log, [log[1], log[2]]);
    LinesOfTwo(log[1], log[2]);
    RunPrintsLines(opts, today, log, [log[1], log[2]],
                   [LineOf(today - 1, "another bug fix"), LineOf(today, "Bug fix in the authentication")]);
  }

  /** `--until yesterday` keeps the entries of two days ago and of yesterday, in that order. */
  lemma ShowUntil(today: int)
    requires FarEnough(today)
    ensures var log := ThreeDayLog(today);
      var opts := Options(None, None, Some("yesterday"), None);
      Show(opts, today, log) == Ok([log[0], log[1]])
      && Run(opts, today, log) == Outcome(0, Join([LineOf(today - 2, "Mentor a new developer"),
                                                   LineOf(today - 1, "another bug fix")], "\n") + "\n")
  {
    var log := ThreeDayLog(today);
    var opts := Options(None, None, Some("yesterday"), None);
    YesterdayIsOneDayAgo(today);
    var f := FilterSpec(None, None, Some(today - 1), None);
    assert Build(opts, today) == Ok(f);
    QueryIsTheOrderedMatches(f, log, [log[0], log[1]]);
    LinesOfTwo(log[0], log[1]);
    RunPrintsLines(opts, today, log, [log[0], log[1]],
                   [LineOf(today - 2, "Mentor a new developer"), LineOf(today - 1, "another bug fix")]);
  }

  /** The log of the range test: entries three days ago, two days ago, yesterday and today. */
  function FourDayLog(today: int): (log: seq<LogEntry>)
    requires FarEnough(today)
    ensures ValidStore(log)
    ensures log == [LogEntry(1, "Give a presentation about TDD", today - 3), LogEntry(2, "Mentor a new developer", today - 2),
                    LogEntry(3, "another bug fix", today - 1), LogEntry(4, "Bug fix in the authentication", today)]
  {
    BulkCreate([("Give a presentation about TDD", today - 3), ("Mentor a new developer", today - 2),
                ("another bug fix", today - 1), ("Bug fix in the authentication", today)], 1)
  }

  /** `--since "3 days ago" --until "2 days ago"` keeps the first two entries, in order. */
  lemma ShowSinceUntil(today: int)
    requires FarEnough(today)
    ensures var log := FourDayLog(today);
      var opts := Options(None, Some("3 days ago"), Some("2 days ago"), None);
      Show(opts, today, log) == Ok([log[0], log[1]])
      && Run(opts, today, log) == Outcome(0, Join([LineOf(today - 3, "Give a presentation about TDD"),
                                                   LineOf(today - 2, "Mentor a new developer")], "\n") + "\n")
  {
    var log := FourDayLog(today);
    var opts := Options(None, Some("3 days ago"), Some("2 days ago"), None);
    SmallDaysAgo(today);
    var f := FilterSpec(None, Some(today - 3), Some(today - 2), None);
    assert Build(opts, today) == Ok(f);
    QueryIsTheOrderedMatches(f, log, [log[0], log[1]]);
    LinesOfTwo(log[0], log[1]);
    RunPrintsLines(opts, today, log, [log[0], log[1]],
                   [LineOf(today - 3, "Give a presentation about TDD"), LineOf(today - 2, "Mentor a new developer")]);
  }

  /** `--on "3 days ago" --until "2 days ago"` fails with "not allowed with", whatever the log. */
  lemma ShowOnUntilExclusive(today: int, log: seq<LogEntry>)
    requires IsDay(today) && ValidStore(log)
    ensures var opts := Options(Some("3 days ago"), None, Some("2 days ago"), None);
      Show(opts, today, log) == Err(MutuallyExclusive("on", "until"))
      && Run(opts, today, log).exitCode != 0
      && Contains(Run(opts, today, log).output, "not allowed with")
  {
    OnExcludesRange(Options(Some("3 days ago"), None, Some("2 days ago"), None), today, log);
  }
}
