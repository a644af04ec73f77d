/**
 * The `show` command end to end: build the filter from the options, query the
 * log, and either render the matching entries (exit code 0) or report the
 * error (a non-zero exit code) without producing any entry.
 */
module ShowCommand {
  import opened Results
  import opened Calendar
  import opened Text
  import opened DateResolver
  import opened FilterBuilder
  import opened QueryEngine
  import opened Presenter

  /** The store's bulk insert: entries get consecutive ids from `firstId`, in the given order. */
  function BulkCreate(drafts: seq<(string, int)>, firstId: nat): (log: seq<LogEntry>)
    ensures |log| == |drafts|
    ensures forall i :: 0 <= i < |log| ==> log[i] == LogEntry(firstId + i, drafts[i].0, drafts[i].1)
    ensures InInsertionOrder(log)
  {
    seq(|drafts|, i requires 0 <= i < |drafts| => LogEntry(firstId + i, drafts[i].0, drafts[i].1))
  }

  /** The entries `show` lists, or the error that stops it before any query. */
  function Show(opts: Options, today: int, log: seq<LogEntry>): (r: Result<seq<LogEntry>, BuildError>)
    requires IsDay(today)
    ensures r.Err? <==> Build(opts, today).Err?
    ensures r.Err? ==> r.error == Build(opts, today).error
  {
    match Build(opts, today)
    case Err(e) => Err(e)
    case Ok(f) => Ok(Query(f, log))
  }

  /** What the command line sees: the exit code and the text written. */
  datatype Outcome = Outcome(exitCode: int, output: string)

  /** The exit code of a usage error. */
  const UsageError := 2

  function Run(opts: Options, today: int, log: seq<LogEntry>): (o: Outcome)
    requires IsDay(today) && ValidStore(log)
    ensures o.exitCode == 0 <==> Show(opts, today, log).Ok?
  {
    match Show(opts, today, log)
    case Err(e) => Outcome(UsageError, ErrorMessage(e) + "\n")
    case Ok(entries) =>
      QueryKeepsValidStore(Build(opts, today).value, log);
      Outcome(0, Render(entries))
  }

  /** When the filter builds, `show` exits with 0 and renders the query's result. */
  lemma RunSucceeds(opts: Options, today: int, log: seq<LogEntry>, f: FilterSpec)
    requires IsDay(today) && ValidStore(log) && Build(opts, today) == Ok(f)
    ensures ValidStore(Query(f, log)) && Run(opts, today, log) == Outcome(0, Render(Query(f, log)))
  {
    QueryKeepsValidStore(f, log);
  }

  /**
   * When `show` lists the entries r and their lines are the given ones, it
   * exits with 0 and prints those lines joined by newlines, with a trailing
   * newline (nothing at all when there are none).
   */
  lemma RunPrintsLines(opts: Options, today: int, log: seq<LogEntry>, r: seq<LogEntry>, expected: seq<string>)
    requires IsDay(today) && ValidStore(log) && Show(opts, today, log) == Ok(r)
    requires AllDated(r) && Lines(r) == expected
    ensures Run(opts, today, log) == Outcome(0, if expected == [] then "" else Join(expected, "\n") + "\n")
  {
    RunSucceeds(opts, today, log, Build(opts, today).value);
  }

  /** An entry satisfies every given option, each date-like option read against `today`. */
  predicate Satisfies(opts: Options, today: int, e: LogEntry)
    requires IsDay(today)
  {
    (opts.on.Some? ==> Resolve(opts.on.value, today) == Ok(e.logDate))
    && (opts.since.Some? ==> Resolve(opts.since.value, today).Ok? && Resolve(opts.since.value, today).value <= e.logDate)
    && (opts.until.Some? ==> Resolve(opts.until.value, today).Ok? && e.logDate <= Resolve(opts.until.value, today).value)
    && (opts.contains.Some? ==> Contains(e.message, opts.contains.value))
  }

  /**
   * When `show` succeeds it lists exactly the stored entries that satisfy every
   * given option (a conjunction), in insertion order.
   */
  lemma ShowSelects(opts: Options, today: int, log: seq<LogEntry>)
    requires IsDay(today) && InInsertionOrder(log)
    requires Show(opts, today, log).Ok?
    ensures forall e :: e in Show(opts, today, log).value <==> e in log && Satisfies(opts, today, e)
    ensures InInsertionOrder(Show(opts, today, log).value)
  {
    var f := Build(opts, today).value;
    QueryMembership(f, log);
    QueryKeepsInsertionOrder(f, log);
    forall e ensures Matches(f, e) <==> Satisfies(opts, today, e) {
    }
  }

  /**
   * `--on` together with `--since` or `--until` fails, whatever the tokens and
   * the log: a non-zero exit code, a message saying "not allowed with", and no entry.
   */
  lemma OnExcludesRange(opts: Options, today: int, log: seq<LogEntry>)
    requires IsDay(today) && ValidStore(log) && Conflicts(opts)
    ensures Show(opts, today, log).Err? && Show(opts, today, log).error.MutuallyExclusive?
    ensures Run(opts, today, log).exitCode != 0
    ensures Contains(Run(opts, today, log).output, "not allowed with")
  {
    var e := Build(opts, today).error;
    ContainsExtends(ErrorMessage(e), NotAllowedWith, "\n");
  }

  /** A query that matches nothing succeeds with empty output. */
  lemma NoMatchIsNotAnError(opts: Options, today: int, log: seq<LogEntry>)
    requires IsDay(today) && ValidStore(log) && Build(opts, today).Ok?
    requires forall e :: e in log ==> !Matches(Build(opts, today).value, e)
    ensures Run(opts, today, log) == Outcome(0, "")
  {
    var f := Build(opts, today).value;
    QueryMembership(f, log);
    if Query(f, log) != [] {
      assert Query(f, log)[0] in Query(f, log);
    }
  }
}
