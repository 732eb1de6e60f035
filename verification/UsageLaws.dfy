/** What the usage totals of one interface amount to, over every sequence of samples. */
module UsageLaws {
  import opened Options
  import opened Usage

  function Front<T>(s: seq<T>): seq<T>
    requires s != []
  {
    s[..|s| - 1]
  }

  function Last<T>(s: seq<T>): T
    requires s != []
  {
    s[|s| - 1]
  }

  /** All bytes the samples stand for, counted without a 64-bit limit. */
  function Traffic(ss: seq<Sample>): nat {
    if |ss| <= 1 then 0 else Traffic(Front(ss)) + Delta(Last(ss).raw, Last(Front(ss)).raw)
  }

  /** The readings just before each restart of the counter, together. */
  function BeforeRestarts(ss: seq<Sample>): nat {
    if |ss| <= 1 then 0
    else
      var cur, prev := Last(ss).raw, Last(Front(ss)).raw;
      BeforeRestarts(Front(ss)) + if cur < prev then prev else 0
  }

  /** Every day that was ever archived, with its total. */
  function Archive(ss: seq<Sample>): seq<Entry> {
    if |ss| <= 1 then []
    else
      var prev := Last(Front(ss)).date;
      Archive(Front(ss)) + if Last(ss).date == prev then [] else [Entry(prev, Run(Front(ss)).day)]
  }

  function Sum(h: seq<Entry>): nat {
    if h == [] then 0 else Sum(Front(h)) + Last(h).bytes
  }

  function MonthSum(h: seq<Entry>, m: Month): nat {
    if h == [] then 0 else MonthSum(Front(h), m) + if Last(h).date.month == m then Last(h).bytes else 0
  }

  // ---- 64-bit arithmetic ---------------------------------------------------

  lemma WrapAdd(a: int, b: int)
    ensures Wrap(Wrap(a) + b) == Wrap(a + b)
  {
  }

  lemma WrapSmall(a: nat)
    requires a < 0x1_0000_0000_0000_0000
    ensures Wrap(a) == a
  {
  }

  // ---- the record after a run ----------------------------------------------

  lemma RunUnfolds(ss: seq<Sample>)
    requires ss != []
    ensures Run(ss) == Fold(Run(Front(ss)), Last(ss))
  {
  }

  lemma RunKeys(ss: seq<Sample>)
    requires ss != []
    ensures var c, s := Run(ss), Last(ss);
      c.seen && c.last == s.raw && c.dayKey == Some(s.date) && c.monthKey == Some(s.date.month)
  {
    hide Run, Delta, Wrap, Push;
    RunUnfolds(ss);
  }

  lemma FoldStep(c: Channel, prev: Sample, s: Sample)
    requires c.seen && c.last == prev.raw && c.dayKey == Some(prev.date) && c.monthKey == Some(prev.date.month)
    ensures var c', d := Fold(c, s), Delta(s.raw, prev.raw);
      && c'.total == Wrap(c.total + d)
      && c'.day == Wrap((if s.date == prev.date then c.day else 0) + d)
      && c'.month == Wrap((if s.date.month == prev.date.month then c.month else 0) + d)
      && c'.history == if s.date == prev.date then c.history else Push(c.history, Entry(prev.date, c.day))
  {
    hide Delta, Wrap, Push;
  }

  /** How one more sample changes the record of a run that has a baseline. */
  lemma {:induction false} RunStep(ss: seq<Sample>)
    requires |ss| >= 2
    ensures var c, c', prev, s := Run(Front(ss)), Run(ss), Last(Front(ss)), Last(ss);
      var d := Delta(s.raw, prev.raw);
      && c'.total == Wrap(c.total + d)
      && c'.day == Wrap((if s.date == prev.date then c.day else 0) + d)
      && c'.month == Wrap((if s.date.month == prev.date.month then c.month else 0) + d)
      && c'.history == if s.date == prev.date then c.history else Push(c.history, Entry(prev.date, c.day))
  {
    hide Run, Fold, Delta, Wrap, Push;
    RunKeys(Front(ss));
    RunUnfolds(ss);
    FoldStep(Run(Front(ss)), Last(Front(ss)), Last(ss));
  }

  lemma RunFirst(ss: seq<Sample>)
    requires |ss| == 1
    ensures var c := Run(ss);
      c.total == 0 && c.day == 0 && c.month == 0 && c.history == []
  {
    assert Front(ss) == [];
  }

  // ---- all-time total --------------------------------------------------------

  lemma {:induction false} TotalIsTraffic(ss: seq<Sample>)
    ensures Run(ss).total == Wrap(Traffic(ss))
    decreases |ss|
  {
    hide Wrap, Delta, Run;
    if |ss| >= 2 {
      TotalIsTraffic(Front(ss));
      RunStep(ss);
      WrapAdd(Traffic(Front(ss)), Delta(Last(ss).raw, Last(Front(ss)).raw));
    } else {
      WrapSmall(0);
      if |ss| == 1 { RunFirst(ss); } else { RunNone(ss); }
    }
  }

  lemma RunNone(ss: seq<Sample>)
    requires ss == []
    ensures Run(ss) == START
  {
  }

  lemma {:induction false} TrafficIsNet(ss: seq<Sample>)
    requires ss != []
    ensures Traffic(ss) == Last(ss).raw - ss[0].raw + BeforeRestarts(ss)
    decreases |ss|
  {
    if |ss| >= 2 {
      TrafficIsNet(Front(ss));
    }
  }

  /**
   The all-time total is the last reading minus the first, plus the reading just before
   each restart of the counter, modulo 2^64.
   */
  lemma {:induction false} TotalConservation(ss: seq<Sample>)
    requires ss != []
    ensures Run(ss).total == Wrap(Last(ss).raw - ss[0].raw + BeforeRestarts(ss))
  {
    hide *;
    TotalIsTraffic(ss);
    TrafficIsNet(ss);
  }

  // ---- day and month -----------------------------------------------------------

  /** The bytes of the samples since the last change of date. */
  function DayTraffic(ss: seq<Sample>): nat {
    if |ss| <= 1 then 0
    else
      (if Last(ss).date == Last(Front(ss)).date then DayTraffic(Front(ss)) else 0) +
      Delta(Last(ss).raw, Last(Front(ss)).raw)
  }

  /** The bytes of the samples since the last change of month. */
  function MonthTraffic(ss: seq<Sample>): nat {
    if |ss| <= 1 then 0
    else
      (if Last(ss).date.month == Last(Front(ss)).date.month then MonthTraffic(Front(ss)) else 0) +
      Delta(Last(ss).raw, Last(Front(ss)).raw)
  }

  /** Day and month count what came since they began, the sample that begins them included, modulo 2^64. */
  lemma {:induction false} DayAndMonthTraffic(ss: seq<Sample>)
    ensures Run(ss).day == Wrap(DayTraffic(ss)) && Run(ss).month == Wrap(MonthTraffic(ss))
    decreases |ss|
  {
    hide Wrap, Delta, Run;
    if |ss| >= 2 {
      DayAndMonthTraffic(Front(ss));
      RunStep(ss);
      var d := Delta(Last(ss).raw, Last(Front(ss)).raw);
      WrapAdd(DayTraffic(Front(ss)), d);
      WrapAdd(MonthTraffic(Front(ss)), d);
    } else {
      WrapSmall(0);
      if |ss| == 1 { RunFirst(ss); } else { RunNone(ss); }
    }
  }

  // ---- archived days -----------------------------------------------------------

  lemma TailPush(a: seq<Entry>, e: Entry)
    ensures Push(Tail(a), e) == Tail(a + [e])
  {
  }

  /** The history is the last 90 of all the days ever archived. */
  lemma {:induction false} HistoryIsTail(ss: seq<Sample>)
    ensures Run(ss).history == Tail(Archive(ss))
    decreases |ss|
  {
    hide Run, Push, Tail, Wrap, Delta;
    if |ss| >= 2 {
      HistoryIsTail(Front(ss));
      RunStep(ss);
      var e := Entry(Last(Front(ss)).date, Run(Front(ss)).day);
      TailPush(Archive(Front(ss)), e);
      assert Archive(Front(ss)) + [] == Archive(Front(ss));
    } else {
      TailNone();
      if |ss| == 1 { RunFirst(ss); } else { RunNone(ss); }
    }
  }

  lemma TailNone()
    ensures Tail<Entry>([]) == []
  {
  }

  /** The all-time total is today plus every day ever archived, modulo 2^64. */
  lemma {:induction false} TotalIsDayPlusArchive(ss: seq<Sample>)
    ensures Run(ss).total == Wrap(Run(ss).day + Sum(Archive(ss)))
    decreases |ss|
  {
    hide Run, Wrap, Delta, Sum;
    SumNone();
    if |ss| >= 2 {
      var c, prev, s := Run(Front(ss)), Last(Front(ss)), Last(ss);
      var d := Delta(s.raw, prev.raw);
      TotalIsDayPlusArchive(Front(ss));
      RunStep(ss);
      var a := Archive(Front(ss));
      WrapAdd(c.day + Sum(a), d);
      if s.date == prev.date {
        assert a + [] == a;
        WrapAdd(c.day + d, Sum(a));
      } else {
        SumPush(a, Entry(prev.date, c.day));
        WrapAdd(d, Sum(a) + c.day);
      }
    } else {
      WrapSmall(0);
      if |ss| == 1 { RunFirst(ss); } else { RunNone(ss); }
    }
  }

  lemma SumNone()
    ensures Sum([]) == 0
  {
  }

  lemma SumPush(a: seq<Entry>, e: Entry)
    ensures Sum(a + [e]) == Sum(a) + e.bytes
  {
    assert Front(a + [e]) == a;
  }

  // ---- day, month and total -------------------------------------------------

  /** While the traffic fits 64 bits, today is within the month and the month within the total. */
  lemma {:induction false} DayWithinMonthWithinTotal(ss: seq<Sample>)
    requires Traffic(ss) < 0x1_0000_0000_0000_0000
    ensures Run(ss).day <= Run(ss).month <= Run(ss).total == Traffic(ss)
    decreases |ss|
  {
    hide Run, Wrap, Delta;
    if |ss| >= 2 {
      DayWithinMonthWithinTotal(Front(ss));
      RunStep(ss);
      var c, prev, s := Run(Front(ss)), Last(Front(ss)), Last(ss);
      var d := Delta(s.raw, prev.raw);
      WrapSmall(c.total + d);
      WrapSmall(c.month + d);
      WrapSmall(c.day + d);
      WrapSmall(0 + d);
    } else {
      if |ss| == 1 { RunFirst(ss); } else { RunNone(ss); }
    }
  }

  // ---- the month agrees with the daily history --------------------------------

  /** The clock never goes back a day, and days of a month are 1 to 31. */
  predicate Forward(ss: seq<Sample>) {
    && (forall i :: 0 <= i < |ss| ==> ValidDate(ss[i].date))
    && (forall i :: 0 < i < |ss| ==> ss[i - 1].date == ss[i].date || Earlier(ss[i - 1].date, ss[i].date))
  }

  predicate Increasing(h: seq<Entry>) {
    forall i, j :: 0 <= i < j < |h| ==> Earlier(h[i].date, h[j].date)
  }

  lemma ForwardFront(ss: seq<Sample>)
    requires Forward(ss) && |ss| >= 2
    ensures Forward(Front(ss)) && ValidDate(Last(ss).date) && ValidDate(Last(Front(ss)).date)
    ensures Last(Front(ss)).date == Last(ss).date || Earlier(Last(Front(ss)).date, Last(ss).date)
  {
    var i := |ss| - 1;
    assert ss[i - 1] == Last(Front(ss));
  }

  lemma {:induction false} ArchiveIncreases(ss: seq<Sample>)
    requires Forward(ss) && ss != []
    ensures Increasing(Archive(ss))
    ensures forall i :: 0 <= i < |Archive(ss)| ==>
      ValidDate(Archive(ss)[i].date) && Earlier(Archive(ss)[i].date, Last(ss).date)
    decreases |ss|
  {
    hide Run;
    if |ss| >= 2 {
      ForwardFront(ss);
      ArchiveIncreases(Front(ss));
    }
  }

  /** In increasing dates, days of one month rise by at least one from entry to entry. */
  lemma {:induction false} DaysRise(h: seq<Entry>, d: Date, i: nat, j: nat)
    requires Increasing(h) && i <= j < |h|
    requires forall k :: 0 <= k < |h| ==> Earlier(h[k].date, d)
    requires h[i].date.month == d.month
    ensures h[j].date.month == d.month && h[j].date.day >= h[i].date.day + (j - i)
    decreases j
  {
    if i < j {
      DaysRise(h, d, i, j - 1);
      assert Earlier(h[j - 1].date, h[j].date);
    }
  }

  /** The 90-entry cap never evicts a day of the current month. */
  lemma {:induction false} CapSparesMonth(h: seq<Entry>, d: Date, i: nat)
    requires Increasing(h) && ValidDate(d)
    requires forall k :: 0 <= k < |h| ==> ValidDate(h[k].date) && Earlier(h[k].date, d)
    requires i + HISTORY_DAYS < |h|
    ensures h[i].date.month != d.month
  {
    if h[i].date.month == d.month {
      DaysRise(h, d, i, |h| - 1);
    }
  }

  lemma {:induction false} MonthSumSkips(h: seq<Entry>, k: nat, m: Month)
    requires k <= |h| && forall i :: 0 <= i < k ==> h[i].date.month != m
    ensures MonthSum(h[k..], m) == MonthSum(h, m)
    decreases |h|
  {
    if k < |h| {
      MonthSumSkips(Front(h), k, m);
      assert Front(h[k..]) == Front(h)[k..];
    } else {
      MonthSumNone(h, m);
      MonthSumNone(h[k..], m);
    }
  }

  lemma {:induction false} MonthSumNone(h: seq<Entry>, m: Month)
    requires forall i :: 0 <= i < |h| ==> h[i].date.month != m
    ensures MonthSum(h, m) == 0
    decreases |h|
  {
    if h != [] {
      MonthSumNone(Front(h), m);
    }
  }

  lemma MonthSumPush(a: seq<Entry>, e: Entry, m: Month)
    ensures MonthSum(a + [e], m) == MonthSum(a, m) + if e.date.month == m then e.bytes else 0
  {
    assert Front(a + [e]) == a;
  }

  lemma NewMonthIsEmpty(a: seq<Entry>, d: Date, d': Date)
    requires Earlier(d, d') && d.month != d'.month
    requires forall i :: 0 <= i < |a| ==> Earlier(a[i].date, d)
    ensures MonthSum(a, d'.month) == 0
  {
    MonthSumNone(a, d'.month);
  }

  lemma {:induction false} MonthIsDayPlusArchive(ss: seq<Sample>)
    requires Forward(ss) && ss != []
    ensures Run(ss).month == Wrap(Run(ss).day + MonthSum(Archive(ss), Last(ss).date.month))
    decreases |ss|
  {
    hide Run, Wrap, Delta, MonthSum, Earlier;
    if |ss| >= 2 {
      var c, prev, s := Run(Front(ss)), Last(Front(ss)), Last(ss);
      var d, a, m := Delta(s.raw, prev.raw), Archive(Front(ss)), s.date.month;
      ForwardFront(ss);
      MonthIsDayPlusArchive(Front(ss));
      ArchiveIncreases(Front(ss));
      RunStep(ss);
      WrapAdd(c.day + MonthSum(a, m), d);
      if s.date == prev.date {
        assert a + [] == a;
        WrapAdd(c.day + d, MonthSum(a, m));
      } else {
        MonthSumPush(a, Entry(prev.date, c.day), m);
        if m != prev.date.month { NewMonthIsEmpty(a, prev.date, s.date); }
        WrapAdd(d, MonthSum(a + [Entry(prev.date, c.day)], m));
      }
    } else {
      RunFirst(ss);
      WrapSmall(0);
      MonthSumNone([], Last(ss).date.month);
    }
  }

  /**
   The current month agrees with the daily history: it is today plus the history's entries
   of this month, modulo 2^64, although the history only goes back 90 days.
   */
  lemma {:induction false} MonthAgreesWithHistory(ss: seq<Sample>)
    requires Forward(ss) && ss != []
    ensures Run(ss).monthKey == Some(Last(ss).date.month)
    ensures Run(ss).month == Wrap(Run(ss).day + MonthSum(Run(ss).history, Last(ss).date.month))
  {
    hide Run, Wrap, MonthSum;
    RunKeys(ss);
    MonthIsDayPlusArchive(ss);
    HistoryIsTail(ss);
    ArchiveIncreases(ss);
    var a, m := Archive(ss), Last(ss).date.month;
    if |a| > HISTORY_DAYS {
      var k := |a| - HISTORY_DAYS;
      forall i | 0 <= i < k ensures a[i].date.month != m {
        CapSparesMonth(a, Last(ss).date, i);
      }
      MonthSumSkips(a, k, m);
    }
  }

  // ---- and any one sample, whatever its date ----------------------------------

  /** The month total is today plus the history's entries of the month. */
  predicate Agrees(c: Channel) {
    c.monthKey.Some? && c.month == Wrap(c.day + MonthSum(c.history, c.monthKey.value))
  }

  /** The oldest entry is about to be evicted, and it carries traffic of month m. */
  predicate EvictsTraffic(h: seq<Entry>, m: Month) {
    |h| == HISTORY_DAYS && h[0].date.month == m && h[0].bytes > 0
  }

  /**
   Exactly when month and history agree after one more sample, for any date and any record,
   in agreement before or not: on the same day when they did before; on another day of the
   month when the month total is the new history's; in another month when the new history has
   no traffic, modulo 2^64, of that month.
   */
  lemma {:induction false} AgreementStep(c: Channel, s: Sample, d: Date)
    requires c.seen && c.dayKey == Some(d) && c.monthKey == Some(d.month)
    ensures Agrees(Fold(c, s)) <==>
      if s.date == d then Agrees(c)
      else if s.date.month == d.month then c.month == Wrap(MonthSum(Push(c.history, Entry(d, c.day)), d.month))
      else Wrap(MonthSum(Push(c.history, Entry(d, c.day)), s.date.month)) == 0
  {
    hide Wrap, Delta, MonthSum, Push;
    var v, m := Delta(s.raw, c.last), s.date.month;
    FoldStep(c, Sample(c.last, d), s);
    FoldKeys(c, s);
    WrapSmall(0);
    WrapSmall(c.month);
    if s.date == d {
      var sum := MonthSum(c.history, m);
      WrapAdd(c.day + v, sum);
      WrapCancel(c.month, c.day + sum, v);
    } else {
      var sum := MonthSum(Push(c.history, Entry(d, c.day)), m);
      WrapAdd(v, sum);
      WrapCancel(if m == d.month then c.month else 0, sum, v);
    }
  }

  /** From agreement, the next sample ends it only by evicting traffic of the month or by going back to one. */
  lemma {:induction false} AgreementKept(c: Channel, s: Sample, d: Date)
    requires c.seen && c.dayKey == Some(d) && c.monthKey == Some(d.month) && |c.history| <= HISTORY_DAYS
    requires Agrees(c)
    ensures Agrees(Fold(c, s)) <==>
      if s.date == d then true
      else if s.date.month == d.month then !EvictsTraffic(c.history, d.month)
      else Wrap(MonthSum(Push(c.history, Entry(d, c.day)), s.date.month)) == 0
  {
    hide Wrap, Delta, MonthSum, Push, Fold;
    AgreementStep(c, s, d);
    if s.date != d && s.date.month == d.month {
      var sum, sum' := MonthSum(c.history, d.month), MonthSum(Push(c.history, Entry(d, c.day)), d.month);
      PushedMonth(c.history, Entry(d, c.day), d.month);
      WrapSmall(sum + c.day - sum');
      WrapSmall(0);
      WrapCancel(sum + c.day - sum', 0, sum');
    }
  }

  lemma FoldKeys(c: Channel, s: Sample)
    ensures Fold(c, s).monthKey == Some(s.date.month)
  {
  }

  lemma WrapCancel(a: int, b: int, c: int)
    ensures Wrap(a + c) == Wrap(b + c) <==> Wrap(a) == Wrap(b)
  {
  }

  /** What the month's entries come to after a push: the new entry in, the evicted one out. */
  lemma {:induction false} PushedMonth(h: seq<Entry>, e: Entry, m: Month)
    requires |h| <= HISTORY_DAYS && e.date.month == m
    ensures MonthSum(Push(h, e), m) ==
      MonthSum(h, m) + e.bytes - if EvictsTraffic(h, m) then h[0].bytes else 0
  {
    hide MonthSum;
    MonthSumPush(h, e, m);
    if |h| == HISTORY_DAYS {
      MonthSumHead(h + [e], m);
    }
  }

  lemma {:induction false} MonthSumHead(h: seq<Entry>, m: Month)
    requires h != []
    ensures MonthSum(h, m) == (if h[0].date.month == m then h[0].bytes else 0) + MonthSum(h[1..], m)
    decreases |h|
  {
    if |h| > 1 {
      MonthSumHead(Front(h), m);
      assert Front(h[1..]) == Front(h)[1..];
    } else {
      assert Front(h) == [] && h[1..] == [];
    }
  }

  lemma TwoEntries(a: Entry, b: Entry)
    requires a.date.month != b.date.month
    ensures MonthSum([a, b], a.date.month) == a.bytes
  {
    assert Front([a, b]) == [a] && Front([a]) == [];
    assert MonthSum([a], a.date.month) == a.bytes;
  }

  lemma PushFew(h: seq<Entry>, e: Entry)
    requires |h| < HISTORY_DAYS
    ensures Push(h, e) == h + [e]
  {
  }

  /** A clock that goes back into a finished month breaks the agreement. */
  lemma {:induction false} BackwardClockDisagrees()
    ensures var jan, feb := Date(Month(2026, 1), 31), Date(Month(2026, 2), 1);
      var ss := [Sample(0, jan), Sample(5, jan), Sample(5, feb), Sample(5, jan)];
      Run(ss).month == 0 && MonthSum(Run(ss).history, jan.month) == 5
  {
    var jan, feb := Date(Month(2026, 1), 31), Date(Month(2026, 2), 1);
    var s1, s2 := [Sample(0, jan)], [Sample(0, jan), Sample(5, jan)];
    var s3 := s2 + [Sample(5, feb)];
    var s4 := s3 + [Sample(5, jan)];
    hide Run, Fold, Wrap, MonthSum, Push;
    WrapSmall(0);
    WrapSmall(5);
    assert Front(s4) == s3 && Front(s3) == s2 && Front(s2) == s1;
    RunFirst(s1);
    RunStep(s2);
    RunStep(s3);
    PushFew([], Entry(jan, 5));
    RunStep(s4);
    PushFew([Entry(jan, 5)], Entry(feb, 0));
    TwoEntries(Entry(jan, 5), Entry(feb, 0));
    assert Run(s4).history == [Entry(jan, 5), Entry(feb, 0)];
    assert s4 == [Sample(0, jan), Sample(5, jan), Sample(5, feb), Sample(5, jan)];
  }
}
