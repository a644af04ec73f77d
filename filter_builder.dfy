/**
 * The filter builder of the `show` command: it validates the combination of
 * the `--on`, `--since`, `--until` and `--contains` options and turns them
 * into a filter spec, resolving every date-like option against `today`.
 *
 * An option that was not given is `None`; an option given as the empty
 * string is `Some("")`, which is a different thing.
 */
module FilterBuilder {
  import opened Results
  import opened Calendar
  import opened Text
  import opened DateResolver

  /** The raw option strings of one `show` invocation. */
  datatype Options = Options(on: Option<string>, since: Option<string>, until: Option<string>, contains: Option<string>)

  const NoOptions := Options(None, None, None, None)

  /** The validated query: resolved day numbers and the substring to look for. */
  datatype FilterSpec = FilterSpec(on: Option<int>, since: Option<int>, until: Option<int>, contains: Option<string>)

  const NoFilter := FilterSpec(None, None, None, None)

  datatype BuildError =
    | MutuallyExclusive(option: string, other: string)
    | InvalidDate(option: string, token: string, reason: DateError)

  /** `--on` together with `--since` or `--until`. */
  predicate Conflicts(opts: Options) {
    opts.on.Some? && (opts.since.Some? || opts.until.Some?)
  }

  /** A filter spec never combines `on` with a range bound, and its dates are representable. */
  predicate ValidSpec(f: FilterSpec) {
    !(f.on.Some? && (f.since.Some? || f.until.Some?))
    && (f.on.Some? ==> IsDay(f.on.value))
    && (f.since.Some? ==> IsDay(f.since.value))
    && (f.until.Some? ==> IsDay(f.until.value))
  }

  /** An option that is absent, or whose token resolves. */
  predicate Resolves(token: Option<string>, today: int)
    requires IsDay(today)
  {
    token.Some? ==> Resolve(token.value, today).Ok?
  }

  function Resolved(token: Option<string>, today: int): Option<int>
    requires IsDay(today) && Resolves(token, today)
  {
    if token.Some? then Some(Resolve(token.value, today).value) else None
  }

  /** Resolves one optional date-like option, naming it in the error. */
  function ResolveOption(name: string, token: Option<string>, today: int): (r: Result<Option<int>, BuildError>)
    requires IsDay(today)
    ensures r.Ok? <==> Resolves(token, today)
    ensures r.Ok? ==> r.value == Resolved(token, today)
    ensures r.Ok? && r.value.Some? ==> IsDay(r.value.value)
    ensures r.Err? ==> token.Some? && r.error == InvalidDate(name, token.value, Resolve(token.value, today).error)
  {
    match token
    case None => Ok(None)
    case Some(t) =>
      match Resolve(t, today)
      case Ok(d) => Ok(Some(d))
      case Err(e) => Err(InvalidDate(name, t, e))
  }

  /**
   * Builds the filter spec. The exclusivity of `on` is checked before any
   * token is resolved; then `on`, `since` and `until` are resolved in that
   * order and the first failure is reported. Build succeeds exactly when the
   * options do not conflict and every given date-like option resolves; the
   * spec then holds the resolved dates and the `contains` option unchanged.
   */
  function Build(opts: Options, today: int): (r: Result<FilterSpec, BuildError>)
    requires IsDay(today)
    ensures r.Ok? ==> ValidSpec(r.value) && r.value.contains == opts.contains
    ensures (r.Err? && r.error.MutuallyExclusive?) <==> Conflicts(opts)
    ensures r.Err? && r.error.MutuallyExclusive? ==> r.error.option == "on"
    ensures r.Err? && r.error.MutuallyExclusive? ==>
      (r.error.other == "since" && opts.since.Some?) || (r.error.other == "until" && opts.until.Some?)
    ensures r.Ok? <==>
      !Conflicts(opts) && Resolves(opts.on, today) && Resolves(opts.since, today) && Resolves(opts.until, today)
    ensures r.Ok? ==>
      r.value == FilterSpec(Resolved(opts.on, today), Resolved(opts.since, today), Resolved(opts.until, today), opts.contains)
  {
    if opts.on.Some? && opts.since.Some? then
      Err(MutuallyExclusive("on", "since"))
    else if opts.on.Some? && opts.until.Some? then
      Err(MutuallyExclusive("on", "until"))
    else
      match ResolveOption("on", opts.on, today)
      case Err(e) => Err(e)
      case Ok(on) =>
        match ResolveOption("since", opts.since, today)
        case Err(e) => Err(e)
        case Ok(since) =>
          match ResolveOption("until", opts.until, today)
          case Err(e) => Err(e)
          case Ok(until) => Ok(FilterSpec(on, since, until, opts.contains))
  }

  /**
   * When the options do not conflict but a date-like option fails to resolve,
   * Build names the first such option (in the order on, since, until) and its raw token.
   */
  lemma BuildReportsInvalidDate(opts: Options, today: int)
    requires IsDay(today) && !Conflicts(opts)
    ensures !Resolves(opts.on, today) ==>
      Build(opts, today) == Err(InvalidDate("on", opts.on.value, Resolve(opts.on.value, today).error))
    ensures Resolves(opts.on, today) && !Resolves(opts.since, today) ==>
      Build(opts, today) == Err(InvalidDate("since", opts.since.value, Resolve(opts.since.value, today).error))
    ensures Resolves(opts.on, today) && Resolves(opts.since, today) && !Resolves(opts.until, today) ==>
      Build(opts, today) == Err(InvalidDate("until", opts.until.value, Resolve(opts.until.value, today).error))
  {
  }

  /** The phrase that identifies the exclusivity violation; callers rely on it. */
  const NotAllowedWith := "not allowed with"

  /**
   * The human-readable line that reports a build error. The exclusivity error
   * has the phrase "not allowed with" and names both options; the invalid-date
   * error names the option and quotes the token.
   */
  function ErrorMessage(e: BuildError): (m: string)
    ensures e.MutuallyExclusive? ==>
      Contains(m, NotAllowedWith) && Contains(m, "--" + e.option) && Contains(m, "--" + e.other)
    ensures e.InvalidDate? ==> Contains(m, "--" + e.option) && Contains(m, e.token)
  {
    match e
    case MutuallyExclusive(option, other) =>
      var named := "Error: Illegal usage: " + ("--" + option);
      var phrase := named + " is " + NotAllowedWith;
      var full := phrase + " " + ("--" + other);
      ContainsSuffix("Error: Illegal usage: ", "--" + option);
      ContainsExtends(named, "--" + option, " is ");
      ContainsExtends(named + " is ", "--" + option, NotAllowedWith);
      ContainsSuffix(named + " is ", NotAllowedWith);
      ContainsExtends(phrase, "--" + option, " ");
      ContainsExtends(phrase, NotAllowedWith, " ");
      ContainsExtends(phrase + " ", "--" + option, "--" + other);
      ContainsExtends(phrase + " ", NotAllowedWith, "--" + other);
      ContainsSuffix(phrase + " ", "--" + other);
      ContainsExtends(full, "--" + option, ".");
      ContainsExtends(full, NotAllowedWith, ".");
      ContainsExtends(full, "--" + other, ".");
      full + "."
    case InvalidDate(option, token, _) =>
      var named := "Error: Invalid value for " + ("--" + option);
      var quoted := named + ": '" + token;
      ContainsSuffix("Error: Invalid value for ", "--" + option);
      ContainsExtends(named, "--" + option, ": '");
      ContainsExtends(named + ": '", "--" + option, token);
      ContainsSuffix(named + ": '", token);
      ContainsExtends(quoted, "--" + option, "' is not a valid date.");
      ContainsExtends(quoted, token, "' is not a valid date.");
      quoted + "' is not a valid date."
  }
}
