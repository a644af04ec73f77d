/**
 * The date resolver of the `show` command: it turns a date token into a day
 * number, measured against an injected `today`.
 *
 * Absolute tokens are `YYYY-MM-DD`. Relative tokens are "today", "yesterday"
 * and "N day ago" / "N days ago" for a decimal N; relative tokens are matched
 * without regard to the case of letters.
 */
module DateResolver {
  import opened Results
  import opened Calendar
  import opened Text

  datatype DateError =
    | Unrecognised   // the token fits neither the absolute nor the relative grammar
    | OutOfRange     // the token is relative and reaches back before 0001-01-01

  /** A date written as `YYYY-MM-DD`, zero-padded. */
  function FormatIso(d: Date): (s: string)
    requires IsValid(d)
    ensures |s| == 10 && s[4] == '-' && s[7] == '-'
  {
    Padded(d.year, 4) + "-" + Padded(d.month, 2) + "-" + Padded(d.day, 2)
  }

  /** The date a `YYYY-MM-DD` token denotes, if it is one and the date exists. */
  function ParseIso(s: string): (r: Option<Date>)
    ensures r.Some? ==> IsValid(r.value)
  {
    if |s| == 10 && s[4] == '-' && s[7] == '-'
       && AllDigits(s[..4]) && AllDigits(s[5..7]) && AllDigits(s[8..])
    then
      var d := Date(Value(s[..4]), Value(s[5..7]), Value(s[8..]));
      if IsValid(d) then Some(d) else None
    else
      None
  }

  /** Parsing the rendering of a date gives the date back. */
  lemma ParseFormat(d: Date)
    requires IsValid(d)
    ensures ParseIso(FormatIso(d)) == Some(d)
  {
    var s := FormatIso(d);
    assert s[..4] == Padded(d.year, 4);
    assert s[5..7] == Padded(d.month, 2);
    assert s[8..] == Padded(d.day, 2);
  }

  /** A token accepted as an absolute date is exactly the rendering of that date. */
  lemma FormatParse(s: string)
    requires ParseIso(s).Some?
    ensures FormatIso(ParseIso(s).value) == s
  {
    PaddedValue(s[..4]);
    PaddedValue(s[5..7]);
    PaddedValue(s[8..]);
    assert s == s[..4] + "-" + s[5..7] + "-" + s[8..];
  }

  const DaysAgo := " days ago"
  const DayAgo := " day ago"

  /** How many days before `today` a relative token (already case-folded) points. */
  function DaysBack(t: string): (r: Option<nat>)
    ensures r.Some? ==> |t| > 0 && 'a' <= t[|t| - 1] <= 'z'
  {
    if t == "today" then Some(0)
    else if t == "yesterday" then Some(1)
    else if |t| > |DaysAgo| && t[|t| - |DaysAgo|..] == DaysAgo && AllDigits(t[..|t| - |DaysAgo|]) then
      assert t[|t| - 1] == t[|t| - |DaysAgo|..][|DaysAgo| - 1];
      Some(Value(t[..|t| - |DaysAgo|]))
    else if |t| > |DayAgo| && t[|t| - |DayAgo|..] == DayAgo && AllDigits(t[..|t| - |DayAgo|]) then
      assert t[|t| - 1] == t[|t| - |DayAgo|..][|DayAgo| - 1];
      Some(Value(t[..|t| - |DayAgo|]))
    else
      None
  }

  /** The day number a date token denotes relative to `today`. */
  function Resolve(token: string, today: int): (r: Result<int, DateError>)
    requires IsDay(today)
    ensures r.Ok? ==> IsDay(r.value)
    ensures r.Ok? && ParseIso(token).None? ==> r.value <= today
    ensures ParseIso(token).Some? ==> r == Ok(ToOrdinal(ParseIso(token).value))
    ensures r == Err(Unrecognised) <==> ParseIso(token).None? && DaysBack(Lower(token)).None?
    ensures r == Err(OutOfRange) <==>
      ParseIso(token).None? && DaysBack(Lower(token)).Some? && DaysBack(Lower(token)).value >= today
  {
    match ParseIso(token)
    case Some(d) =>
      OrdinalInRange(d);
      Ok(ToOrdinal(d))
    case None =>
      match DaysBack(Lower(token))
      case None => Err(Unrecognised)
      case Some(n) => if IsDay(today - n) then Ok(today - n) else Err(OutOfRange)
  }

  /** An absolute token resolves to its own date, whatever `today` is. */
  lemma ResolveAbsolute(d: Date, today: int)
    requires IsValid(d) && IsDay(today)
    ensures Resolve(FormatIso(d), today) == Ok(ToOrdinal(d))
  {
    ParseFormat(d);
  }

  /** A relative token is never also an absolute one: it ends in a letter, an absolute one in a digit. */
  lemma RelativeIsNotAbsolute(t: string)
    requires DaysBack(Lower(t)).Some?
    ensures ParseIso(t).None?
  {
    var l := Lower(t);
    assert l[|l| - 1] == ToLower(t[|t| - 1]);
    assert !IsDigit(t[|t| - 1]);
    assert |t| == 10 ==> !IsDigit(t[8..][1]);
  }

  /** "N days ago" resolves to today - N, for every N that stays in range. */
  lemma ResolveDaysAgo(n: nat, today: int)
    requires IsDay(today) && n < today
    ensures Resolve(Numeral(n) + DaysAgo, today) == Ok(today - n)
    ensures Resolve(Numeral(n) + DayAgo, today) == Ok(today - n)
  {
    DaysBackDaysAgo(Numeral(n));
    ResolveRelative(Numeral(n) + DaysAgo, n, today);
    DaysBackDayAgo(Numeral(n));
    ResolveRelative(Numeral(n) + DayAgo, n, today);
  }

  /** A token "<digits> days ago" or "<digits> day ago" is already case-folded. */
  lemma LowerAgo(digits: string, suffix: string)
    requires AllDigits(digits)
    requires suffix == DaysAgo || suffix == DayAgo
    ensures Lower(digits + suffix) == digits + suffix
  {
    LowerAppend(digits, suffix);
    LowerDigits(digits);
    assert Lower(DaysAgo) == DaysAgo && Lower(DayAgo) == DayAgo;
  }

  /** "<digits> day(s) ago" splits back into its digits and its suffix. */
  lemma AgoSplits(digits: string, suffix: string)
    requires AllDigits(digits) && |digits| >= 1
    requires suffix == DaysAgo || suffix == DayAgo
    ensures var t := digits + suffix;
      |t| > |suffix| && t[|t| - |suffix|..] == suffix && t[..|t| - |suffix|] == digits
      && t != "today" && t != "yesterday"
  {
    var t := digits + suffix;
    assert t[..|t| - |suffix|] == digits;
    assert t[|t| - |suffix|..] == suffix;
    assert t[|t| - 1] == 'o';
  }

  /** "<digits> day ago" does not end in " days ago". */
  lemma DayAgoIsNotDaysAgo(digits: string)
    requires AllDigits(digits) && |digits| >= 1
    ensures var t := digits + DayAgo; !(|t| > |DaysAgo| && t[|t| - |DaysAgo|..] == DaysAgo)
  {
    var t := digits + DayAgo;
    assert t[|t| - |DayAgo|] == ' ';
    if |t| > |DaysAgo| {
      assert t[|t| - |DaysAgo|..][1] == ' ';
    }
  }

  /** The days a relative token "<digits> days ago" points back. */
  lemma DaysBackDaysAgo(digits: string)
    requires AllDigits(digits) && |digits| >= 1
    ensures DaysBack(Lower(digits + DaysAgo)) == Some(Value(digits))
  {
    LowerAgo(digits, DaysAgo);
    AgoSplits(digits, DaysAgo);
  }

  /** The days a relative token "<digits> day ago" points back. */
  lemma DaysBackDayAgo(digits: string)
    requires AllDigits(digits) && |digits| >= 1
    ensures DaysBack(Lower(digits + DayAgo)) == Some(Value(digits))
  {
    LowerAgo(digits, DayAgo);
    AgoSplits(digits, DayAgo);
    DayAgoIsNotDaysAgo(digits);
  }

  /**
   * The relative grammar accepts nothing else: a token DaysBack recognises is
   * "today" (0 days), "yesterday" (1 day), or a non-empty run of digits followed
   * by " days ago" or " day ago" (the number the digits spell).
   */
  lemma DaysBackOnlyForms(t: string, n: nat)
    requires DaysBack(t) == Some(n)
    ensures (t == "today" && n == 0) || (t == "yesterday" && n == 1)
      || exists digits :: AllDigits(digits) && |digits| >= 1 && n == Value(digits)
           && (t == digits + DaysAgo || t == digits + DayAgo)
  {
    if t != "today" && t != "yesterday" {
      var suffix := if |t| > |DaysAgo| && t[|t| - |DaysAgo|..] == DaysAgo && AllDigits(t[..|t| - |DaysAgo|])
        then DaysAgo else DayAgo;
      var digits := t[..|t| - |suffix|];
      assert t == digits + t[|t| - |suffix|..];
      assert AllDigits(digits) && |digits| >= 1 && n == Value(digits) && t == digits + suffix;
    }
  }

  /** A token that is neither `YYYY-MM-DD` nor, once case-folded, one of the relative forms is rejected. */
  lemma ResolveRejects(token: string, today: int)
    requires IsDay(today) && ParseIso(token).None?
    requires Lower(token) != "today" && Lower(token) != "yesterday"
    requires forall digits :: AllDigits(digits) && |digits| >= 1 ==>
      Lower(token) != digits + DaysAgo && Lower(token) != digits + DayAgo
    ensures Resolve(token, today) == Err(Unrecognised)
  {
    if DaysBack(Lower(token)).Some? {
      DaysBackOnlyForms(Lower(token), DaysBack(Lower(token)).value);
    }
  }

  /** A relative token resolves to `today` minus the days it points back, when that is in range. */
  lemma ResolveRelative(token: string, n: nat, today: int)
    requires IsDay(today) && DaysBack(Lower(token)) == Some(n)
    ensures Resolve(token, today) == if n < today then Ok(today - n) else Err(OutOfRange)
  {
    RelativeIsNotAbsolute(token);
  }

  /** "<digits> day(s) ago" resolves to today minus the number the digits spell, when that is in range. */
  lemma ResolveAgoToken(digits: string, today: int)
    requires IsDay(today) && AllDigits(digits) && |digits| >= 1 && Value(digits) < today
    ensures Resolve(digits + DaysAgo, today) == Ok(today - Value(digits))
    ensures Resolve(digits + DayAgo, today) == Ok(today - Value(digits))
  {
    DaysBackDaysAgo(digits);
    ResolveRelative(digits + DaysAgo, Value(digits), today);
    DaysBackDayAgo(digits);
    ResolveRelative(digits + DayAgo, Value(digits), today);
  }


  /** How the literal relative tokens are spelled; kept apart so the literal strings stay out of the resolver proofs. */
  lemma RelativeSpellings()
    ensures Lower("today") == "today" && Lower("yesterday") == "yesterday"
    ensures "1" + DayAgo == "1 day ago" && "1" + DaysAgo == "1 days ago" && Value("1") == 1
    ensures "0" + DaysAgo == "0 days ago" && Value("0") == 0
  {
  }

  /** "yesterday", "1 day ago" and "1 days ago" all denote today - 1. */
  lemma YesterdayIsOneDayAgo(today: int)
    requires IsDay(today) && today >= 2
    ensures Resolve("yesterday", today) == Ok(today - 1)
    ensures Resolve("1 day ago", today) == Ok(today - 1)
    ensures Resolve("1 days ago", today) == Ok(today - 1)
  {
    RelativeSpellings();
    ResolveRelative("yesterday", 1, today);
    ResolveAgoToken("1", today);
  }


  /** "today" and "0 days ago" denote `today`. */
  lemma TodayIsZeroDaysAgo(today: int)
    requires IsDay(today)
    ensures Resolve("today", today) == Ok(today)
    ensures Resolve("0 days ago", today) == Ok(today)
  {
    RelativeSpellings();
    ResolveRelative("today", 0, today);
    ResolveAgoToken("0", today);
  }

  /** Relative tokens that point before 0001-01-01 are rejected, not wrapped. */
  lemma ResolveTooFarBack(n: nat, today: int)
    requires IsDay(today) && n >= today
    ensures Resolve(Numeral(n) + DaysAgo, today) == Err(OutOfRange)
    ensures Resolve(Numeral(n) + DayAgo, today) == Err(OutOfRange)
  {
    DaysBackDaysAgo(Numeral(n));
    ResolveRelative(Numeral(n) + DaysAgo, n, today);
    DaysBackDayAgo(Numeral(n));
    ResolveRelative(Numeral(n) + DayAgo, n, today);
  }

  /** A token that is, or folds to, an absolute date has no letters to fold. */
  lemma IsoTokenHasNoLetters(s: string)
    requires ParseIso(s).Some? || ParseIso(Lower(s)).Some?
    ensures Lower(s) == s
  {
    var l := Lower(s);
    forall i | 0 <= i < |s|
      ensures l[i] == s[i]
    {
      var t := if ParseIso(s).Some? then s else l;
      assert IsDigit(t[i]) || t[i] == '-' by {
        if i < 4 {
          assert t[i] == t[..4][i];
        } else if 5 <= i < 7 {
          assert t[i] == t[5..7][i - 5];
        } else if 8 <= i {
          assert t[i] == t[8..][i - 8];
        }
      }
    }
  }

  /** Resolution ignores the case of letters in the token. */
  lemma ResolveIgnoresCase(token: string, today: int)
    requires IsDay(today)
    ensures Resolve(token, today) == Resolve(Lower(token), today)
  {
    LowerIdempotent(token);
    if ParseIso(token).Some? || ParseIso(Lower(token)).Some? {
      IsoTokenHasNoLetters(token);
    }
  }
}
