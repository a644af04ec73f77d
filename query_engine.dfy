/**
 * The query engine of the `show` command: an order-preserving filter over the
 * log, kept in insertion order. Every condition the filter spec has must hold
 * of an entry for it to be kept.
 */
module QueryEngine {
  import opened Results
  import opened Calendar
  import opened Text
  import opened FilterBuilder

  /** One dated accomplishment; `id` is the store's auto-incremented insertion marker. */
  datatype LogEntry = LogEntry(id: nat, message: string, logDate: int)

  /** Entries appear in the order they were inserted: their ids strictly increase. */
  predicate InInsertionOrder(s: seq<LogEntry>) {
    forall i, j :: 0 <= i < j < |s| ==> s[i].id < s[j].id
  }

  /** Entries appear by date, ties broken by insertion order. */
  predicate InDateOrder(s: seq<LogEntry>) {
    forall i, j :: 0 <= i < j < |s| ==> s[i].logDate < s[j].logDate || (s[i].logDate == s[j].logDate && s[i].id < s[j].id)
  }

  /** A log as the store holds it: insertion-ordered, every entry dated with a representable date. */
  predicate ValidStore(s: seq<LogEntry>) {
    InInsertionOrder(s) && forall i :: 0 <= i < |s| ==> IsDay(s[i].logDate)
  }

  /**
   * The conjunction of every condition the spec has. The empty spec matches
   * every entry; a match lies on the `on` day and inside the inclusive
   * `since`..`until` range, so an inverted range matches nothing.
   */
  predicate Matches(f: FilterSpec, e: LogEntry)
    ensures f == NoFilter ==> Matches(f, e)
    ensures Matches(f, e) && f.on.Some? ==> e.logDate == f.on.value
    ensures Matches(f, e) && f.since.Some? && f.until.Some? ==> f.since.value <= e.logDate <= f.until.value
    ensures f.since.Some? && f.until.Some? && f.since.value > f.until.value ==> !Matches(f, e)
  {
    (f.on.Some? ==> e.logDate == f.on.value)
    && (f.since.Some? ==> e.logDate >= f.since.value)
    && (f.until.Some? ==> e.logDate <= f.until.value)
    && (f.contains.Some? ==> Contains(e.message, f.contains.value))
  }

  /** The entries of the log that match the spec, in the log's order. */
  function Query(f: FilterSpec, log: seq<LogEntry>): (r: seq<LogEntry>)
    ensures |r| <= |log|
  {
    if log == [] then []
    else (if Matches(f, log[0]) then [log[0]] else []) + Query(f, log[1..])
  }

  /** An entry is in the result exactly when it is in the log and matches every condition. */
  lemma {:induction false} QueryMembership(f: FilterSpec, log: seq<LogEntry>)
    ensures forall e :: e in Query(f, log) <==> e in log && Matches(f, e)
  {
    if log != [] {
      QueryMembership(f, log[1..]);
      assert log == [log[0]] + log[1..];
    }
  }

  /** Each entry is kept as often as it occurs if it matches, and never otherwise. */
  lemma {:induction false} QueryMultiplicity(f: FilterSpec, log: seq<LogEntry>, e: LogEntry)
    ensures multiset(Query(f, log))[e] == if Matches(f, e) then multiset(log)[e] else 0
  {
    if log != [] {
      QueryMultiplicity(f, log[1..], e);
      var head := if Matches(f, log[0]) then [log[0]] else [];
      assert Query(f, log) == head + Query(f, log[1..]);
      assert multiset(Query(f, log)) == multiset(head) + multiset(Query(f, log[1..]));
      assert log == [log[0]] + log[1..];
      assert multiset(log) == multiset([log[0]]) + multiset(log[1..]);
    }
  }

  /** Filtering a concatenation filters each part: the engine never reorders. */
  lemma {:induction false} QueryAppend(f: FilterSpec, a: seq<LogEntry>, b: seq<LogEntry>)
    ensures Query(f, a + b) == Query(f, a) + Query(f, b)
  {
    if a == [] {
      assert a + b == b;
    } else {
      var head := if Matches(f, a[0]) then [a[0]] else [];
      assert (a + b)[0] == a[0];
      assert (a + b)[1..] == a[1..] + b;
      assert Query(f, a + b) == head + Query(f, a[1..] + b);
      QueryAppend(f, a[1..], b);
      assert Query(f, a) == head + Query(f, a[1..]);
    }
  }

  /** An entry that matches is kept; one that does not is dropped. */
  lemma QuerySingle(f: FilterSpec, e: LogEntry)
    ensures Query(f, [e]) == if Matches(f, e) then [e] else []
  {
    assert [e][1..] == [];
  }

  /** When every entry matches, the whole log comes back, in its own order. */
  lemma {:induction false} QueryKeepsAll(f: FilterSpec, log: seq<LogEntry>)
    requires forall i :: 0 <= i < |log| ==> Matches(f, log[i])
    ensures Query(f, log) == log
  {
    if log != [] {
      QueryKeepsAll(f, log[1..]);
    }
  }

  /** The empty spec keeps the whole log, in insertion order. */
  lemma QueryNoFilter(log: seq<LogEntry>)
    ensures Query(NoFilter, log) == log
  {
    QueryKeepsAll(NoFilter, log);
  }

  /**
   * An empty `contains` is present but matches every message, so it keeps the
   * same entries as no `contains` at all.
   */
  lemma {:induction false} QueryEmptyContains(f: FilterSpec, log: seq<LogEntry>)
    ensures Query(f.(contains := Some("")), log) == Query(f.(contains := None), log)
  {
    if log != [] {
      EmptyOccurs(log[0].message);
      QueryEmptyContains(f, log[1..]);
    }
  }

  /** Applying two specs in turn is applying the spec that is their conjunction. */
  lemma {:induction false} QueryComposes(f: FilterSpec, g: FilterSpec, h: FilterSpec, log: seq<LogEntry>)
    requires forall e :: Matches(h, e) <==> Matches(f, e) && Matches(g, e)
    ensures Query(h, log) == Query(f, Query(g, log))
  {
    if log != [] {
      QueryComposes(f, g, h, log[1..]);
      QueryAppend(f, if Matches(g, log[0]) then [log[0]] else [], Query(g, log[1..]));
      if Matches(g, log[0]) {
        QuerySingle(f, log[0]);
      }
    }
  }

  /** A range `since`..`until` is the `until` bound applied after the `since` bound. */
  lemma QueryRange(since: int, until: int, contains: Option<string>, log: seq<LogEntry>)
    ensures Query(FilterSpec(None, Some(since), Some(until), contains), log)
      == Query(FilterSpec(None, None, Some(until), contains), Query(FilterSpec(None, Some(since), None, None), log))
  {
    QueryComposes(FilterSpec(None, None, Some(until), contains), FilterSpec(None, Some(since), None, None),
                  FilterSpec(None, Some(since), Some(until), contains), log);
  }

  /** Filtering keeps insertion order. */
  lemma {:induction false} QueryKeepsInsertionOrder(f: FilterSpec, log: seq<LogEntry>)
    requires InInsertionOrder(log)
    ensures InInsertionOrder(Query(f, log))
  {
    if log != [] {
      QueryKeepsInsertionOrder(f, log[1..]);
      QueryMembership(f, log[1..]);
      var rest := Query(f, log[1..]);
      assert forall e :: e in rest ==> log[0].id < e.id by {
        forall e | e in rest ensures log[0].id < e.id {
          var j :| 1 <= j < |log| && log[j] == e;
        }
      }
    }
  }

  /** Filtering keeps date order, so on a date-ordered log the result is date-ordered too. */
  lemma {:induction false} QueryKeepsDateOrder(f: FilterSpec, log: seq<LogEntry>)
    requires InDateOrder(log)
    ensures InDateOrder(Query(f, log))
  {
    if log != [] {
      QueryKeepsDateOrder(f, log[1..]);
      QueryMembership(f, log[1..]);
      var rest := Query(f, log[1..]);
      var x := log[0];
      assert forall e :: e in rest ==> x.logDate < e.logDate || (x.logDate == e.logDate && x.id < e.id) by {
        forall e | e in rest ensures x.logDate < e.logDate || (x.logDate == e.logDate && x.id < e.id) {
          var j :| 1 <= j < |log| && log[j] == e;
        }
      }
      if Matches(f, x) {
        DateOrderCons(x, rest);
        assert Query(f, log) == [x] + rest;
      } else {
        assert Query(f, log) == rest;
      }
    }
  }

  /** An entry dated before every entry of a date-ordered sequence can go in front of it. */
  lemma DateOrderCons(x: LogEntry, rest: seq<LogEntry>)
    requires InDateOrder(rest)
    requires forall e :: e in rest ==> x.logDate < e.logDate || (x.logDate == e.logDate && x.id < e.id)
    ensures InDateOrder([x] + rest)
  {
    var r := [x] + rest;
    forall i, j | 0 <= i < j < |r|
      ensures r[i].logDate < r[j].logDate || (r[i].logDate == r[j].logDate && r[i].id < r[j].id)
    {
      assert r[j] == rest[j - 1];
      if i > 0 {
        assert r[i] == rest[i - 1];
      }
    }
  }

  /** Every entry of the result comes from a valid store, so the result is a valid store. */
  lemma QueryKeepsValidStore(f: FilterSpec, log: seq<LogEntry>)
    requires ValidStore(log)
    ensures ValidStore(Query(f, log))
  {
    QueryKeepsInsertionOrder(f, log);
    QueryMembership(f, log);
    var r := Query(f, log);
    forall i | 0 <= i < |r| ensures IsDay(r[i].logDate) {
      assert r[i] in log;
    }
  }

  /**
   * Two insertion-ordered sequences with the same entries are equal; so the
   * result of a query on the store is the one insertion-ordered sequence of the
   * matching entries.
   */
  lemma {:induction false} InsertionOrderedUnique(a: seq<LogEntry>, b: seq<LogEntry>)
    requires InInsertionOrder(a) && InInsertionOrder(b)
    requires forall e :: e in a <==> e in b
    ensures a == b
  {
    assert a != [] ==> a[0] in b;
    assert b != [] ==> b[0] in a;
    if a != [] && b != [] {
      assert a[0] in b;
      assert b[0] in a;
      var i :| 0 <= i < |b| && b[i] == a[0];
      var j :| 0 <= j < |a| && a[j] == b[0];
      assert b[0].id <= b[i].id && a[0].id <= a[j].id;
      assert i == 0 && j == 0;
      forall e ensures e in a[1..] <==> e in b[1..] {
        if e in a[1..] {
          var k :| 1 <= k < |a| && a[k] == e;
          assert e in b && e != b[0];
        }
        if e in b[1..] {
          var k :| 1 <= k < |b| && b[k] == e;
          assert e in a && e != a[0];
        }
      }
      InsertionOrderedUnique(a[1..], b[1..]);
      assert a == [a[0]] + a[1..] && b == [b[0]] + b[1..];
    }
  }

  /** The result on a store is determined by which entries match. */
  lemma QueryIsTheOrderedMatches(f: FilterSpec, log: seq<LogEntry>, r: seq<LogEntry>)
    requires InInsertionOrder(log) && InInsertionOrder(r)
    requires forall e :: e in r <==> e in log && Matches(f, e)
    ensures r == Query(f, log)
  {
    QueryKeepsInsertionOrder(f, log);
    QueryMembership(f, log);
    InsertionOrderedUnique(r, Query(f, log));
  }
}
