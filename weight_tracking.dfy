/** The weight log of `update_weight_log` and `display_progress`
    (app.py:109-117): a dictionary from date to weight that an update
    changes in place, and a listing of its entries in ascending date order.
    The date is passed in rather than read from the clock. */
module WeightTracking {
  import opened DateOrder

  /** An ISO-8601 calendar date, as `date.isoformat()` writes it. */
  type Date = string

  /** The log after `log[date] = weight`. */
  function Recorded(log: map<Date, real>, date: Date, weight: real): (r: map<Date, real>)
    ensures date in r && r[date] == weight
    ensures r.Keys == log.Keys + {date}
    ensures forall d :: d in log && d != date ==> r[d] == log[d]
  {
    log[date := weight]
  }

  /** A second weight on the same date replaces the first: one entry remains. */
  lemma RecordingTwiceKeepsLatest(log: map<Date, real>, date: Date, first: real, second: real)
    ensures Recorded(Recorded(log, date, first), date, second) == Recorded(log, date, second)
  {
  }

  /** The caller's dictionary, which the update changes in place. */
  class WeightLog {
    var entries: map<Date, real>

    constructor ()
      ensures entries == map[]
    {
      entries := map[];
    }

    /** `update_weight_log`, with `today` standing for the clock's date. */
    method Update(today: Date, currentWeight: real)
      modifies this
      ensures entries == Recorded(old(entries), today, currentWeight)
    {
      entries := entries[today := currentWeight];
    }
  }

  /** The dates of a listing, in order. */
  function DatesOf(lines: seq<(Date, real)>): set<Date> {
    set i | 0 <= i < |lines| :: lines[i].0
  }

  lemma DatesOfAppend(lines: seq<(Date, real)>, entry: (Date, real))
    ensures DatesOf(lines + [entry]) == DatesOf(lines) + {entry.0}
  {
    var next := lines + [entry];
    forall d | d in DatesOf(next)
      ensures d in DatesOf(lines) + {entry.0}
    {
      var i :| 0 <= i < |next| && next[i].0 == d;
      if i < |lines| {
        assert lines[i].0 == d;
      }
    }
    forall d | d in DatesOf(lines)
      ensures d in DatesOf(next)
    {
      var i :| 0 <= i < |lines| && lines[i].0 == d;
      assert next[i].0 == d;
    }
    assert next[|lines|].0 == entry.0;
  }

  /** Every finite non-empty set of strings has a least element. */
  lemma {:induction false} LeastExists(s: set<Date>)
    requires s != {}
    ensures exists m :: m in s && forall e :: e in s ==> e == m || LexLess(m, e)
    decreases s
  {
    var x :| x in s;
    if s != {x} {
      var rest := s - {x};
      LeastExists(rest);
      var m :| m in rest && forall e :: e in rest ==> e == m || LexLess(m, e);
      LexLessTotal(x, m);
      if LexLess(x, m) {
        forall e | e in s
          ensures e == x || LexLess(x, e)
        {
          if e != x && e != m {
            LexLessTransitive(x, m, e);
          }
        }
      } else {
        assert forall e :: e in s ==> e == m || LexLess(m, e);
      }
    }
  }

  /** Each line shows a logged date with the weight logged for it. */
  predicate FromLog(lines: seq<(Date, real)>, log: map<Date, real>) {
    forall i :: 0 <= i < |lines| ==> lines[i].0 in log && lines[i].1 == log[lines[i].0]
  }

  /** The dates of the lines strictly ascend. */
  predicate Ascending(lines: seq<(Date, real)>) {
    forall i, j :: 0 <= i < j < |lines| ==> LexLess(lines[i].0, lines[j].0)
  }

  /** Every listed date comes before every date still to be listed. */
  predicate AllBefore(lines: seq<(Date, real)>, remaining: set<Date>) {
    forall i, e :: 0 <= i < |lines| && e in remaining ==> LexLess(lines[i].0, e)
  }

  /** Listing the least remaining date next keeps the listing ascending and
      ahead of the dates still to come. */
  lemma ListLeastNext(lines: seq<(Date, real)>, remaining: set<Date>, date: Date, weight: real)
    requires Ascending(lines) && AllBefore(lines, remaining)
    requires date in remaining && forall e :: e in remaining ==> e == date || LexLess(date, e)
    ensures Ascending(lines + [(date, weight)])
    ensures AllBefore(lines + [(date, weight)], remaining - {date})
  {
  }

  /** `display_progress`: the entries of `sorted(weight_log.items())`, one
      per printed line, each date once, in ascending order. */
  method DisplayProgress(log: map<Date, real>) returns (lines: seq<(Date, real)>)
    ensures |lines| == |log|
    ensures DatesOf(lines) == log.Keys
    ensures FromLog(lines, log)
    ensures Ascending(lines)
  {
    var remaining := log.Keys;
    assert |remaining| == |log|;
    lines := [];
    while remaining != {}
      invariant remaining <= log.Keys
      invariant DatesOf(lines) == log.Keys - remaining
      invariant |lines| + |remaining| == |log|
      invariant FromLog(lines, log)
      invariant Ascending(lines) && AllBefore(lines, remaining)
      decreases |remaining|
    {
      LeastExists(remaining);
      var date :| date in remaining && forall e :: e in remaining ==> e == date || LexLess(date, e);
      DatesOfAppend(lines, (date, log[date]));
      ListLeastNext(lines, remaining, date, log[date]);
      assert FromLog(lines + [(date, log[date])], log) by {
        var next := lines + [(date, log[date])];
        forall i | 0 <= i < |next|
          ensures next[i].0 in log && next[i].1 == log[next[i].0]
        {
          if i < |lines| {
            assert next[i] == lines[i];
          }
        }
      }
      assert |remaining - {date}| == |remaining| - 1;
      lines := lines + [(date, log[date])];
      remaining := remaining - {date};
    }
  }

  /** When every key is an ISO date, the listing runs from the earliest date
      to the latest. */
  lemma ListingIsChronological(lines: seq<(Date, real)>)
    requires forall i :: 0 <= i < |lines| ==> IsIsoDate(lines[i].0)
    requires Ascending(lines)
    ensures forall i, j :: 0 <= i < j < |lines| ==> ChronologicallyBefore(lines[i].0, lines[j].0)
  {
    forall i, j | 0 <= i < j < |lines|
      ensures ChronologicallyBefore(lines[i].0, lines[j].0)
    {
      IsoDateOrderIsChronological(lines[i].0, lines[j].0);
    }
  }
}
