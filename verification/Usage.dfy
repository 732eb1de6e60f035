/**
 Data-usage accounting of one interface: all-time, month and day totals from raw 64-bit
 counters that may restart, and a history of the last 90 finished days.
 */
module Usage {
  import opened Options

  type Word = n: nat | n < 0x1_0000_0000_0000_0000

  /** 64-bit addition. */
  function Wrap(n: int): Word {
    n % 0x1_0000_0000_0000_0000
  }

  /** The keys "2006-01" and "2006-01-02" of a point in time. */
  datatype Month = Month(year: int, month: int)
  datatype Date = Date(month: Month, day: int)

  predicate ValidDate(d: Date) {
    1 <= d.day <= 31
  }

  predicate EarlierMonth(a: Month, b: Month) {
    a.year < b.year || (a.year == b.year && a.month < b.month)
  }

  predicate Earlier(a: Date, b: Date) {
    EarlierMonth(a.month, b.month) || (a.month == b.month && a.day < b.day)
  }

  const HISTORY_DAYS := 90

  function Delta(cur: Word, last: Word): Word {
    if cur >= last then cur - last else cur
  }

  // ---- the record the daemon keeps ------------------------------------------

  datatype DayTotal = DayTotal(date: Date, rx: Word, tx: Word)

  class DevUsage {
    var totalRX: Word
    var totalTX: Word
    var monthKey: Option<Month>
    var monthRX: Word
    var monthTX: Word
    var dayKey: Option<Date>
    var dayRX: Word
    var dayTX: Word
    var history: seq<DayTotal>
    var lastRX: Word
    var lastTX: Word
    var seen: bool

    constructor ()
      ensures RX() == START && TX() == START
    {
      totalRX, totalTX, monthKey, monthRX, monthTX := 0, 0, None, 0, 0;
      dayKey, dayRX, dayTX, history, lastRX, lastTX, seen := None, 0, 0, [], 0, 0, false;
    }

    /** The received direction of the record. */
    function RX(): Channel
      reads this
    {
      Channel(totalRX, monthKey, monthRX, dayKey, dayRX, Received(history), lastRX, seen)
    }

    function TX(): Channel
      reads this
    {
      Channel(totalTX, monthKey, monthTX, dayKey, dayTX, Sent(history), lastTX, seen)
    }

    method PushHistory(date: Date, rx: Word, tx: Word)
      modifies this`history
      ensures Received(history) == Push(Received(old(history)), Entry(date, rx))
      ensures Sent(history) == Push(Sent(old(history)), Entry(date, tx))
    {
      hide Received, Sent, Push;
      ProjectPush(history, DayTotal(date, rx, tx));
      history := history + [DayTotal(date, rx, tx)];
      if |history| > HISTORY_DAYS {
        history := history[|history| - HISTORY_DAYS..];
      }
    }

    /** A new day archives the finished day; a new month starts its totals again. */
    method StartPeriod(now: Date)
      modifies this`history, this`dayKey, this`dayRX, this`dayTX, this`monthKey, this`monthRX, this`monthTX
      ensures RX() == Rollover(old(RX()), now)
      ensures TX() == Rollover(old(TX()), now)
    {
      hide Push, Received, Sent;
      if dayKey != Some(now) {
        if dayKey.Some? {
          PushHistory(dayKey.value, dayRX, dayTX);
        }
        dayKey, dayRX, dayTX := Some(now), 0, 0;
      }
      if monthKey != Some(now.month) {
        monthKey, monthRX, monthTX := Some(now.month), 0, 0;
      }
    }

    /** One reading folds into both directions alike. */
    method ApplySample(rawRX: Word, rawTX: Word, now: Date)
      modifies this
      ensures RX() == Fold(old(RX()), Sample(rawRX, now))
      ensures TX() == Fold(old(TX()), Sample(rawTX, now))
    {
      hide Rollover, Received, Sent, Delta, Wrap;
      RolloverKeeps(RX(), now);
      RolloverKeeps(TX(), now);
      StartPeriod(now);
      if seen {
        var drx, dtx := Delta(rawRX, lastRX), Delta(rawTX, lastTX);
        totalRX, totalTX := Wrap(totalRX + drx), Wrap(totalTX + dtx);
        monthRX, monthTX := Wrap(monthRX + drx), Wrap(monthTX + dtx);
        dayRX, dayTX := Wrap(dayRX + drx), Wrap(dayTX + dtx);
      }
      lastRX, lastTX, seen := rawRX, rawTX, true;
    }
  }

  // ---- one direction ----------------------------------------------------------

  datatype Entry = Entry(date: Date, bytes: Word)

  datatype Channel = Channel(total: Word, monthKey: Option<Month>, month: Word, dayKey: Option<Date>,
                             day: Word, history: seq<Entry>, last: Word, seen: bool)

  datatype Sample = Sample(raw: Word, date: Date)

  const START := Channel(0, None, 0, None, 0, [], 0, false)

  function Received(h: seq<DayTotal>): (r: seq<Entry>)
    ensures |r| == |h| && forall i :: 0 <= i < |h| ==> r[i] == Entry(h[i].date, h[i].rx)
  {
    seq(|h|, i requires 0 <= i < |h| => Entry(h[i].date, h[i].rx))
  }

  function Sent(h: seq<DayTotal>): (r: seq<Entry>)
    ensures |r| == |h| && forall i :: 0 <= i < |h| ==> r[i] == Entry(h[i].date, h[i].tx)
  {
    seq(|h|, i requires 0 <= i < |h| => Entry(h[i].date, h[i].tx))
  }

  /** The last 90 entries. */
  function Tail<T>(h: seq<T>): seq<T> {
    if |h| > HISTORY_DAYS then h[|h| - HISTORY_DAYS..] else h
  }

  function Push(h: seq<Entry>, e: Entry): seq<Entry> {
    Tail(h + [e])
  }

  lemma RolloverKeeps(c: Channel, d: Date)
    ensures Rollover(c, d).last == c.last && Rollover(c, d).seen == c.seen && Rollover(c, d).total == c.total
  {
  }

  lemma ProjectPush(h: seq<DayTotal>, t: DayTotal)
    ensures Received(Tail(h + [t])) == Push(Received(h), Entry(t.date, t.rx))
    ensures Sent(Tail(h + [t])) == Push(Sent(h), Entry(t.date, t.tx))
  {
    assert Received(h + [t]) == Received(h) + [Entry(t.date, t.rx)];
    assert Sent(h + [t]) == Sent(h) + [Entry(t.date, t.tx)];
  }

  /** A new day archives the old one; a new month starts its accumulator again. */
  function Rollover(c: Channel, d: Date): Channel {
    var c1 := if c.dayKey == Some(d) then c
              else c.(history := if c.dayKey.Some? then Push(c.history, Entry(c.dayKey.value, c.day)) else c.history,
                      dayKey := Some(d), day := 0);
    if c.monthKey == Some(d.month) then c1 else c1.(monthKey := Some(d.month), month := 0)
  }

  function Count(c: Channel, d: Word): (c': Channel)
    ensures d == 0 ==> c' == c
  {
    c.(total := Wrap(c.total + d), month := Wrap(c.month + d), day := Wrap(c.day + d))
  }

  function Fold(c: Channel, s: Sample): Channel {
    var c1 := Rollover(c, s.date);
    Count(c1, if c.seen then Delta(s.raw, c.last) else 0).(last := s.raw, seen := true)
  }

  function Run(ss: seq<Sample>): Channel {
    if ss == [] then START else Fold(Run(ss[..|ss| - 1]), ss[|ss| - 1])
  }
}
