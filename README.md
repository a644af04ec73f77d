# Brag log `show` query engine

This project models the `show` command of the brag log, a personal work log in which
short accomplishment entries are appended with a date and later listed. `show` takes the options
`--on`, `--since`, `--until` and `--contains`. It has three parts:

- **Date resolver** (`date_resolver.dfy`). It turns a date token into a day number, measured
  against an injected `today`. Tokens are either absolute `YYYY-MM-DD`, or relative: `today`,
  `yesterday`, `N day ago` or `N days ago`. Relative tokens ignore the case of letters.
- **Filter builder** (`filter_builder.dfy`). It rejects `--on` combined with `--since` or
  `--until` before any token is resolved. Otherwise it resolves every date-like option and
  builds a `FilterSpec`. An option that was not given (`None`) is kept apart from one given as
  the empty string (`Some("")`).
- **Query engine** (`query_engine.dfy`). It is an order-preserving filter over the log, which is
  kept in insertion order. An entry is kept when it meets every condition the spec has (`on`
  equal, `since` inclusive lower bound, `until` inclusive upper bound, `contains` case-sensitive
  substring).

Around them:
- `calendar.dfy` numbers the days of the proleptic Gregorian calendar. 0001-01-01 is day 1, so
  "N days before" is subtraction. The range is years 1 to 9999, as for a Python `date`.
- `presenter.dfy` renders each entry as a `YYYY-MM-DD: message` line.
- `show.dfy` runs the command end to end. It yields an exit code and the output text.
- `show_scenarios.dfy` restates each test of `tests/test_show.py` as a lemma about the model.
- `text.dfy` holds the digit, case-folding and substring helpers.
- `results.dfy` holds `Option` and `Result`.

The `show` implementation (`braglog/cli.py`) and the store (`braglog/models.py`) are not part
of this model. Their behaviour is taken from what `tests/test_show.py` pins down and from the
system's documented design. The day-number view of dates is a modelling choice: the tests
compute dates with `today - timedelta(days=N)`, which is day-number subtraction.

The result order is a modelling choice. The design describes it as ascending by
`(log_date, created_order)`; the model returns entries in insertion order. The two orders differ
on a log that is not stored in date order. The `--on yesterday` test (tests/test_show.py:87-90) is
such a log: it inserts today's entry before yesterday's. But `show` lists only one entry there, and
every multi-line expected output in the tests is in both orders at once. So no test tells the two
apart. `QueryKeepsDateOrder` shows that on a log stored in date order the insertion-ordered
result is also in date order.

## Model

| member | source | states |
|---|---|---|
| `QueryEngine.Query` | tests/test_show.py:27-30 | the query never returns more entries than the log holds |
| `QueryEngine.Matches` | tests/test_show.py:156-186 | the empty spec matches every entry; a matching entry lies on the `on` day and inside the inclusive `since`..`until` range, so an inverted range matches nothing (the full conjunction, both ways, is `QueryMembership`) |
| `QueryEngine.QueryMembership` | tests/test_show.py:33-54 | an entry is in the result exactly when it is in the log and meets every present condition (a conjunction) |
| `QueryEngine.QueryMultiplicity` | tests/test_show.py:13-30 | each matching entry is kept as many times as it occurs, and a non-matching one never |
| `QueryEngine.QueryAppend` | tests/test_show.py:110-126 | filtering a concatenation filters each part in turn, so the engine never reorders |
| `QueryEngine.QuerySingle` | tests/test_show.py:57-77 | one entry is kept if it matches and dropped if not |
| `QueryEngine.QueryKeepsAll` | tests/test_show.py:8-30 | when every entry matches, the whole log comes back unchanged |
| `QueryEngine.QueryNoFilter` | tests/test_show.py:8-30 | with no option, every entry is listed in insertion order, nothing dropped or reordered |
| `QueryEngine.QueryEmptyContains` | tests/test_show.py:51 | a present empty `contains` keeps the same entries as an absent one |
| `QueryEngine.QueryComposes` | tests/test_show.py:181-186 | applying two specs in turn equals applying their conjunction |
| `QueryEngine.QueryRange` | tests/test_show.py:156-186 | `since` plus `until` is the `until` filter applied after the `since` filter |
| `QueryEngine.QueryKeepsInsertionOrder` | tests/test_show.py:118-126 | the result of an insertion-ordered log is insertion-ordered |
| `QueryEngine.QueryKeepsDateOrder` | tests/test_show.py:145-153 | the result of a date-ordered log is date-ordered (ties by insertion) |
| `QueryEngine.QueryKeepsValidStore` | tests/test_show.py:110-116 | the result of a valid store is a valid store |
| `QueryEngine.InsertionOrderedUnique` | tests/test_show.py:21-30 | two insertion-ordered sequences with the same entries are equal |
| `QueryEngine.QueryIsTheOrderedMatches` | tests/test_show.py:46-54 | the result is the one insertion-ordered sequence of exactly the matching entries |
| `Calendar.ToOrdinal` | tests/test_show.py:85 | a date's day number comes after every day of the earlier years and within its own year, so `today - timedelta(days=N)` is subtraction of day numbers (order and round trip: `OrdinalOrder`, `FromToOrdinal`) |
| `Calendar.OrdinalOrder` | tests/test_show.py:106-108 | day numbers order dates as the calendar does, and equal day numbers mean equal dates |
| `Calendar.OrdinalInRange` | tests/test_show.py:11 | every date of years 1 to 9999 has a day number in range |
| `Calendar.FromOrdinal` | tests/test_show.py:94 | the date of a day number is a valid date with that day number |
| `Calendar.FromToOrdinal` | tests/test_show.py:119-120 | reading a date's day number back gives the date |
| `DateResolver.FormatIso` | tests/test_show.py:72 | a date is written as ten characters with dashes at positions 4 and 7 |
| `DateResolver.ParseIso` | tests/test_show.py:74 | a token accepted as `YYYY-MM-DD` names a valid date |
| `DateResolver.ParseFormat` | tests/test_show.py:72-74 | parsing the rendering of a date gives the date back |
| `DateResolver.FormatParse` | tests/test_show.py:74 | an accepted `YYYY-MM-DD` token is exactly the rendering of its date |
| `DateResolver.DaysBack` | tests/test_show.py:96 | a recognised relative token ends in a letter, so it is never an absolute date |
| `DateResolver.Resolve` | tests/test_show.py:74 | a resolved day is in range, a relative one is not after `today`, and an absolute token resolves to its own date; the token fails as unrecognised exactly when it is neither `YYYY-MM-DD` nor, case-folded, a relative form, and as out of range exactly when it is relative and reaches before day 1 |
| `DateResolver.DaysBackOnlyForms` | tests/test_show.py:96 | the relative grammar accepts only "today" (0), "yesterday" (1) and a non-empty run of digits followed by " days ago" or " day ago" (the number the digits spell) |
| `DateResolver.ResolveRejects` | tests/test_show.py:96 | a token that is neither `YYYY-MM-DD` nor, case-folded, one of the relative forms fails as unrecognised |
| `DateResolver.ResolveAbsolute` | tests/test_show.py:74 | an absolute token resolves to its date whatever `today` is |
| `DateResolver.RelativeIsNotAbsolute` | tests/test_show.py:96 | no relative token is also an absolute one |
| `DateResolver.ResolveDaysAgo` | tests/test_show.py:182 | "N days ago" and "N day ago" resolve to today − N whenever that is in range |
| `DateResolver.ResolveAgoToken` | tests/test_show.py:182 | "<digits> day(s) ago" resolves to today minus the number the digits spell |
| `DateResolver.ResolveRelative` | tests/test_show.py:96 | a relative token resolves to today minus its offset, or fails as out of range |
| `DateResolver.YesterdayIsOneDayAgo` | tests/test_show.py:84-96 | "yesterday", "1 day ago" and "1 days ago" all resolve to today − 1 |
| `DateResolver.TodayIsZeroDaysAgo` | tests/test_show.py:84 | "today" and "0 days ago" resolve to today |
| `DateResolver.ResolveTooFarBack` | tests/test_show.py:85 | a relative token reaching before 0001-01-01 fails instead of wrapping |
| `DateResolver.ResolveIgnoresCase` | tests/test_show.py:96 | resolution gives the same answer for a token and its lower-cased form |
| `FilterBuilder.ResolveOption` | tests/test_show.py:123 | one option resolves exactly when it is absent or its token resolves; a failure names the option and the raw token |
| `FilterBuilder.Build` | tests/test_show.py:189-197 | `on` with `since` or `until` is rejected as mutually exclusive, and only then; the error names `on` and a range option that was actually given; otherwise the build succeeds exactly when every given date resolves, and holds the resolved days and `contains` unchanged |
| `FilterBuilder.BuildReportsInvalidDate` | tests/test_show.py:181-183 | an unresolvable option is reported with its name and token, first in the order on, since, until |
| `FilterBuilder.ErrorMessage` | tests/test_show.py:189-197 | the exclusivity error line contains "not allowed with" and names both options with their `--`; the invalid-date line names the option and contains the raw token |
| `Presenter.LineOf` | tests/test_show.py:21-23 | a line is ten date characters, then ": ", then the message unchanged |
| `Presenter.LineOfReadsBack` | tests/test_show.py:94 | the ten date characters of a line parse as `YYYY-MM-DD` back to the day the entry was logged on |
| `Presenter.RenderLineOfDate` | tests/test_show.py:94 | the line of an entry dated d is d written `YYYY-MM-DD`, ": " and the message |
| `Presenter.Render` | tests/test_show.py:27-30 | the printed output is the entries' lines joined by "\n" plus a trailing "\n", and empty when there are no entries |
| `Presenter.RenderAppend` | tests/test_show.py:30 | rendering a concatenation renders each part in turn |
| `Presenter.RenderSingle` | tests/test_show.py:77 | one entry renders as its line and a newline |
| `ShowCommand.BulkCreate` | tests/test_show.py:19 | bulk insertion keeps the given order and gives strictly increasing ids; every scenario log is built with it |
| `ShowCommand.Show` | tests/test_show.py:193-197 | `show` fails exactly when the filter does not build, with the builder's error |
| `ShowCommand.Run` | tests/test_show.py:29 | the exit code is 0 exactly when `show` succeeds |
| `ShowCommand.RunSucceeds` | tests/test_show.py:27-30 | on success the output is the rendering of the query's result |
| `ShowCommand.RunPrintsLines` | tests/test_show.py:30 | on success the output is the expected lines joined by "\n" plus "\n" |
| `ShowCommand.ShowSelects` | tests/test_show.py:102-186 | a successful `show` lists exactly the stored entries satisfying every given option, in insertion order |
| `ShowCommand.OnExcludesRange` | tests/test_show.py:189-197 | `--on` with `--since` or `--until` fails for every token and log: non-zero exit, "not allowed with" in the output, no entry |
| `ShowCommand.NoMatchIsNotAnError` | tests/test_show.py:74-77 | a query matching nothing exits with 0 and prints nothing |
| `ShowScenarios.ShowAll` | tests/test_show.py:8-30 | three tasks of one day are listed in insertion order as the three expected lines |
| `ShowScenarios.FixInFirst` | tests/test_show.py:39 | "fix" occurs in "Bug fix in the authentication" |
| `ShowScenarios.FixNotInSecond` | tests/test_show.py:40 | "fix" does not occur in "Develop a fantastic feature" |
| `ShowScenarios.FixInThird` | tests/test_show.py:41 | "fix" occurs in "another bug fix" |
| `ShowScenarios.ShowContains` | tests/test_show.py:33-54 | `--contains` keeps the first and third entries, in order, and prints their two lines |
| `ShowScenarios.May14Spelling` | tests/test_show.py:74 | the token "2024-05-14" reads as the date 2024-05-14 |
| `ShowScenarios.May12Spelling` | tests/test_show.py:11-22 | 2024-05-12 is written "2024-05-12" |
| `ShowScenarios.QueryOnThirdDay` | tests/test_show.py:60-72 | filtering by the third entry's day keeps only that entry |
| `ShowScenarios.ShowOnSpecificDate` | tests/test_show.py:57-77 | `--on YYYY-MM-DD` keeps the one entry of that date and prints a line starting with the token |
| `ShowScenarios.ShowOnYesterday` | tests/test_show.py:80-99 | `--on yesterday` keeps yesterday's entry, printed with yesterday's date |
| `ShowScenarios.ShowSince` | tests/test_show.py:102-126 | `--since yesterday` keeps yesterday's and today's entries, in insertion order |
| `ShowScenarios.ShowUntil` | tests/test_show.py:129-153 | `--until yesterday` keeps the entries of two days ago and of yesterday, in insertion order |
| `ShowScenarios.SmallDaysAgo` | tests/test_show.py:182 | "2 days ago" and "3 days ago" resolve to today − 2 and today − 3 |
| `ShowScenarios.ShowSinceUntil` | tests/test_show.py:156-186 | `--since "3 days ago" --until "2 days ago"` keeps the first two entries, in order |
| `ShowScenarios.ShowOnUntilExclusive` | tests/test_show.py:189-197 | `--on "3 days ago" --until "2 days ago"` fails with "not allowed with", whatever the log |
| `Text.Contains` | tests/test_show.py:51 | the substring test holds exactly when the needle occurs at some index |
| `Text.Padded` | tests/test_show.py:22 | a zero-padded numeral has the given width and denotes the number |
| `Text.Lower` | tests/test_show.py:96 | case folding leaves no upper-case letter, turns each upper-case letter into its lower-case partner in place, and keeps every other character |
| `Text.LowerIdempotent` | tests/test_show.py:96 | folding the case of a folded token changes nothing |

## Left out

- The click command-line machinery (`CliRunner`, `runner.invoke`, `isolated_filesystem`) is left out. `ShowCommand.Run` returns an `Outcome` with an exit code and the output text. A usage error exits with 2, as a click usage error does.
- The database layer (`models.LogEntry.bulk_create`, the `db` fixture) is left out. The store is a `seq<LogEntry>` in insertion order, with ids from `ShowCommand.BulkCreate`.
- The wall clock (`date.today()`) is left out. `today` is a parameter, so every relative scenario is proved for every `today` from which "3 days ago" still exists.
- Storage faults (`EntryStoreError`) are left out, because the store is a value and cannot fail.
- The lazy, single-pass iteration of results is left out. The result is a finished sequence.
- The wording of the error lines is a modelling choice, because the implementation is not part of this model. Only the phrase "not allowed with" and the option names are pinned down.
- `ShowScenarios.ShowAll`, `ShowScenarios.ShowContains` and `ShowScenarios.ShowOnSpecificDate` are stated for any valid date, message or needle meeting the scenario's conditions, not for the tests' literal values. `ShowScenarios.May12Spelling`, `ShowScenarios.May14Spelling` and `ShowScenarios.FixInFirst` (with the two lemmas beside it) give the literal values.
- `QueryEngine.Query`: its own contract only bounds the length. Membership, multiplicity and order are proved by the lemmas beside it.
- `QueryEngine.Query` returns entries in insertion order, not ascending by `(log_date, created_order)` as the design describes. The two differ on a log that is not stored in date order; no test tells them apart, because every multi-line expected output is in both orders.
- `QueryEngine.Matches`: its own contract states consequences of the conjunction (the empty spec matches all, a match lies on the `on` day and inside the range), not the conjunction itself. The conjunction in both directions is `QueryEngine.QueryMembership`, stated over whole logs.
- Relative tokens that reach before 0001-01-01 fail with `OutOfRange`; Python would raise an overflow error there.
