// Retention of budget snapshots: the cutoff month and the batched delete.
module Cleanup {
  import opened Common
  import opened StringOrder

  const BATCH_SIZE := 10000

  // ---- Periods as text -----------------------------------------------------------

  function Digit(d: nat): char
    requires d < 10
  {
    ('0' as int + d) as char
  }

  // Zero-padded to at least width characters.
  function Pad(n: nat, width: nat): string
    decreases n, width
  {
    if n < 10 && width <= 1 then [Digit(n)] else Pad(n / 10, if width > 0 then width - 1 else 0) + [Digit(n % 10)]
  }

  // As the 04d format pads: a sign takes one of the four places.
  function Period(year: int, month: nat): string {
    (if year < 0 then "-" + Pad(-year, 3) else Pad(year, 4)) + "-" + Pad(month, 2)
  }

  function Pow10(k: nat): nat { if k == 0 then 1 else 10 * Pow10(k - 1) }

  // Months counted from year 0, so that subtraction crosses years.
  function Index(year: int, month: int): int { 12 * year + month }

  lemma {:induction false} PadLength(n: nat, width: nat)
    requires width > 0 && n < Pow10(width)
    ensures |Pad(n, width)| == width
    decreases width
  {
    if width > 1 { PadLength(n / 10, width - 1); }
  }

  lemma DigitOrder(a: nat, b: nat)
    requires a < 10 && b < 10
    ensures LexLess([Digit(a)], [Digit(b)]) <==> a < b
    ensures Digit(a) == Digit(b) <==> a == b
  {
    assert LexLeq([Digit(b)][1..], [Digit(a)][1..]);
    assert LexLeq([Digit(b)], [Digit(a)]) <==> Digit(b) <= Digit(a);
  }

  // Zero-padded numbers of one width are ordered as text the way they are as
  // numbers.
  lemma {:induction false} PadOrder(a: nat, b: nat, width: nat)
    requires width > 0 && a < Pow10(width) && b < Pow10(width)
    ensures LexLess(Pad(a, width), Pad(b, width)) <==> a < b
    ensures Pad(a, width) == Pad(b, width) <==> a == b
    decreases width
  {
    DigitOrder(a % 10, b % 10);
    if width > 1 {
      PadOrder(a / 10, b / 10, width - 1);
      PadLength(a / 10, width - 1);
      PadLength(b / 10, width - 1);
      var s, t := Pad(a / 10, width - 1), Pad(b / 10, width - 1);
      LexAppend(s, t, [Digit(a % 10)], [Digit(b % 10)]);
      assert (s + [Digit(a % 10)])[..|s|] == s && (t + [Digit(b % 10)])[..|t|] == t;
      assert (s + [Digit(a % 10)])[|s|] == Digit(a % 10) && (t + [Digit(b % 10)])[|t|] == Digit(b % 10);
    }
  }

  predicate Stored(year: int, month: int) { 0 <= year <= 9999 && 1 <= month <= 12 }

  // Periods of the years 0 to 9999 are ordered as text the way months are in time.
  lemma PeriodOrder(y1: int, m1: int, y2: int, m2: int)
    requires Stored(y1, m1) && Stored(y2, m2)
    ensures LexLess(Period(y1, m1), Period(y2, m2)) <==> Index(y1, m1) < Index(y2, m2)
    ensures |Period(y1, m1)| == 7
  {
    FieldOrder(y1, m1, y2, m2);
  }

  lemma FieldOrder(y1: nat, m1: nat, y2: nat, m2: nat)
    requires y1 <= 9999 && y2 <= 9999 && m1 <= 99 && m2 <= 99
    ensures LexLess(Period(y1, m1), Period(y2, m2)) <==> y1 < y2 || (y1 == y2 && m1 < m2)
    ensures |Period(y1, m1)| == 7
  {
    assert Pow10(2) == 100 && Pow10(4) == 10000;
    PadOrder(y1, y2, 4);
    PadOrder(m1, m2, 2);
    PadLength(y1, 4);
    PadLength(y2, 4);
    PadLength(m1, 2);
    hide Pad;
    LexAppend(Pad(y1, 4), Pad(y2, 4), "-" + Pad(m1, 2), "-" + Pad(m2, 2));
    LexAppend("-", "-", Pad(m1, 2), Pad(m2, 2));
    assert Period(y1, m1) == Pad(y1, 4) + ("-" + Pad(m1, 2)) && Period(y2, m2) == Pad(y2, 4) + ("-" + Pad(m2, 2));
  }

  // ---- The cutoff ------------------------------------------------------------------

  // The year and month left after borrowing a year while the month is not positive.
  function Borrowed(year: int, month: int): (int, int)
    decreases -month
  {
    if month <= 0 then Borrowed(year - 1, month + 12) else (year, month)
  }

  // Borrowing keeps the point in time, and gives a calendar month unless the month
  // was already past December.
  lemma {:induction false} BorrowedIsSubtraction(year: int, month: int)
    ensures var (y, m) := Borrowed(year, month);
      && Index(y, m) == Index(year, month)
      && 1 <= m
      && (m <= 12 <==> month <= 12)
      && y <= year
    decreases -month
  {
    if month <= 0 { BorrowedIsSubtraction(year - 1, month + 12); }
  }

  function Cutoff(year: int, month: int, back: int): string {
    BorrowedIsSubtraction(year, month - back);
    var (y, m) := Borrowed(year, month - back);
    Period(y, m)
  }

  method CutoffPeriod(year: int, month: int, monthsBack: int) returns (cutoff: string)
    requires 1 <= year <= 9999 && 1 <= month <= 12
    ensures cutoff == Cutoff(year, month, monthsBack)
  {
    var y, m := year, month - monthsBack;
    while m <= 0
      invariant Borrowed(y, m) == Borrowed(year, month - monthsBack)
      decreases -m
    {
      m := m + 12;
      y := y - 1;
    }
    BorrowedIsSubtraction(year, month - monthsBack);
    cutoff := Period(y, m);
  }

  // Which stored periods lie before the cutoff, as text.
  predicate Old(period: string, cutoff: string) { LexLess(period, cutoff) }

  // Comparing a stored period with the cutoff as text compares the months, for
  // every retention that is not more than a month past December into the future.
  lemma CutoffSelectsOldMonths(year: int, month: int, back: int, y: int, m: int)
    requires 1 <= year <= 9999 && 1 <= month <= 12 && Stored(y, m) && back >= month - 13
    ensures Old(Period(y, m), Cutoff(year, month, back)) <==> Index(y, m) < Index(year, month) - back
  {
    BorrowedIsSubtraction(year, month - back);
    var (cy, cm) := Borrowed(year, month - back);
    if cy >= 0 {
      FieldOrder(y, m, cy, cm);
    } else {
      NegativeYearIsLeast(cy, cm, y, m);
    }
  }

  lemma NegativeYearIsLeast(cy: int, cm: nat, y: nat, m: nat)
    requires cy < 0 && y <= 9999
    ensures !LexLess(Period(y, m), Period(cy, cm))
  {
    PadDigits(y, 4);
    var rest := Period(y, m);
    assert rest[0] == Pad(y, 4)[0];
    assert Period(cy, cm)[0] == '-';
  }

  lemma {:induction false} PadDigits(n: nat, width: nat)
    ensures |Pad(n, width)| > 0 && Pad(n, width)[0] >= '0'
    decreases n, width
  {
    if !(n < 10 && width <= 1) { PadDigits(n / 10, if width > 0 then width - 1 else 0); }
  }

  // No earlier month is kept by mistake and none is lost, for any stored period:
  // exactly the retentions of at least month - 13. The settings accept the others.
  lemma RetentionIsExactIff(year: int, month: int, back: int)
    requires 1 <= year < 9999 && 1 <= month <= 12
    ensures (forall y, m | Stored(y, m) ::
              Old(Period(y, m), Cutoff(year, month, back)) <==> Index(y, m) < Index(year, month) - back)
      <==> back >= month - 13
  {
    if back >= month - 13 {
      forall y, m | Stored(y, m)
        ensures Old(Period(y, m), Cutoff(year, month, back)) <==> Index(y, m) < Index(year, month) - back
      {
        CutoffSelectsOldMonths(year, month, back, y, m);
      }
    } else {
      NextYearIsKept(year, month - back);
      assert Stored(year + 1, 1);
      assert Cutoff(year, month, back) == Period(year, month - back);
    }
  }

  lemma NextYearIsKept(year: nat, cm: nat)
    requires year < 9999
    ensures !Old(Period(year + 1, 1), Period(year, cm))
  {
    assert Pow10(4) == 10000;
    PadOrder(year + 1, year, 4);
    PadLength(year + 1, 4);
    PadLength(year, 4);
    var rest, crest := "-" + Pad(1, 2), "-" + Pad(cm, 2);
    hide Pad;
    assert Period(year + 1, 1) == Pad(year + 1, 4) + rest && Period(year, cm) == Pad(year, 4) + crest;
    LexAppend(Pad(year + 1, 4), Pad(year, 4), rest, crest);
  }

  // With a retention of -12 months in March 2026 the cutoff is not a month, and
  // January 2027, before the month meant, is kept.
  lemma NegativeRetentionMissesAMonth()
    ensures Cutoff(2026, 3, -12) == "2026-15"
    ensures Index(2027, 1) < Index(2026, 3) + 12 && !Old(Period(2027, 1), "2026-15")
  {
    assert Pad(2026, 4) == "2026" by {
      assert Pad(2, 1) == "2" && Pad(20, 2) == "20" && Pad(202, 3) == "202";
    }
    assert Pad(15, 2) == "15" by { assert Pad(1, 1) == "1"; }
    NextYearIsKept(2026, 15);
  }

  // ---- The batched delete ------------------------------------------------------------

  // Snapshot rows by id, each with its period.
  type Rows = map<string, string>

  function Expired(rows: Rows, cutoff: string): set<string> {
    set id <- rows | Old(rows[id], cutoff)
  }

  function Kept(rows: Rows, cutoff: string): Rows {
    map id | id in rows && !Old(rows[id], cutoff) :: rows[id]
  }

  // Deleting some expired rows leaves the rest of them, and every row to keep.
  lemma DeleteSome(rows: Rows, cutoff: string, batch: set<string>)
    requires batch <= Expired(rows, cutoff)
    ensures Expired(rows - batch, cutoff) == Expired(rows, cutoff) - batch
    ensures |Expired(rows - batch, cutoff)| == |Expired(rows, cutoff)| - |batch|
    ensures Kept(rows - batch, cutoff) == Kept(rows, cutoff)
  {
    assert Expired(rows - batch, cutoff) == Expired(rows, cutoff) - batch;
  }

  // A second run finds nothing to delete.
  lemma CleanupIsIdempotent(rows: Rows, cutoff: string)
    ensures Expired(Kept(rows, cutoff), cutoff) == {}
    ensures Kept(Kept(rows, cutoff), cutoff) == Kept(rows, cutoff)
  {
    assert Kept(Kept(rows, cutoff), cutoff) == Kept(rows, cutoff);
  }

  // A row survives exactly when its month is within the retention.
  lemma KeptIffRecent(rows: Rows, year: int, month: int, back: int, id: string, y: int, m: int)
    requires 1 <= year <= 9999 && 1 <= month <= 12 && back >= month - 13
    requires id in rows && Stored(y, m) && rows[id] == Period(y, m)
    ensures id in Kept(rows, Cutoff(year, month, back)) <==> Index(y, m) >= Index(year, month) - back
  {
    CutoffSelectsOldMonths(year, month, back, y, m);
  }

  // Just some of the expired rows are gone: this many.
  ghost predicate Partial(before: Rows, after: Rows, cutoff: string, count: nat) {
    exists gone :: gone <= Expired(before, cutoff) && |gone| == count && after == before - gone
  }

  lemma AllGone(rows: Rows, cutoff: string, gone: set<string>)
    requires gone <= Expired(rows, cutoff) && |gone| >= |Expired(rows, cutoff)|
    ensures rows - gone == Kept(rows, cutoff)
  {
    DeleteSome(rows, cutoff, gone);
    assert gone == Expired(rows, cutoff);
  }

  lemma OneMoreBatch(rows: Rows, cutoff: string, gone: set<string>, batch: set<string>)
    requires gone <= Expired(rows, cutoff) && batch <= Expired(rows - gone, cutoff)
    ensures gone + batch <= Expired(rows, cutoff) && |gone + batch| == |gone| + |batch|
    ensures rows - gone - batch == rows - (gone + batch)
  {
    DeleteSome(rows, cutoff, gone);
  }

  // After a failed run the retry ends where a run without a failure would have.
  lemma RetryFinishes(before: Rows, after: Rows, cutoff: string, count: nat)
    requires Partial(before, after, cutoff, count)
    ensures Kept(after, cutoff) == Kept(before, cutoff)
    ensures |Expired(after, cutoff)| == |Expired(before, cutoff)| - count
  {
    var gone :| gone <= Expired(before, cutoff) && |gone| == count && after == before - gone;
    DeleteSome(before, cutoff, gone);
  }

  datatype Report = Report(deletedRows: nat, cutoffPeriod: string)

  class SnapshotTable {
    var rows: Rows

    constructor (rows: Rows)
      ensures this.rows == rows
    {
      this.rows := rows;
    }

    // One transaction: the database picks which expired rows fill the batch.
    method DeleteBatch(cutoff: string) returns (deleted: nat, ghost batch: set<string>)
      modifies this
      ensures batch <= Expired(old(rows), cutoff) && rows == old(rows) - batch
      ensures deleted == |batch| == Min(10000, |Expired(old(rows), cutoff)|)
    {
      var left, picked: set<string> := Expired(rows, cutoff), {};
      while left != {} && |picked| < BATCH_SIZE
        invariant left !! picked && left + picked == Expired(rows, cutoff)
        invariant |picked| <= BATCH_SIZE
        decreases left
      {
        var id :| id in left;
        left, picked := left - {id}, picked + {id};
      }
      assert |left + picked| == |left| + |picked|;
      rows := rows - picked;
      deleted, batch := |picked|, picked;
    }

    // Batches until one falls short. The transaction of batch number crash fails and
    // is rolled back, and the cleanup stops there.
    method DeleteExpired(cutoff: string, crash: Option<nat>) returns (totalDeleted: Option<nat>)
      modifies this
      ensures totalDeleted.None? <==> crash.Some? && crash.value <= |Expired(old(rows), cutoff)| / 10000
      ensures totalDeleted.Some? ==> rows == Kept(old(rows), cutoff) && totalDeleted.value == |Expired(old(rows), cutoff)|
      ensures totalDeleted.None? ==> Partial(old(rows), rows, cutoff, 10000 * crash.value)
    {
      ghost var before := rows;
      ghost var gone: set<string> := {};
      var total, batches := 0, 0;
      assert rows == before - {};
      while true
        invariant gone <= Expired(before, cutoff) && rows == before - gone
        invariant |gone| == total == BATCH_SIZE * batches <= |Expired(before, cutoff)|
        invariant crash.Some? ==> batches <= crash.value
        decreases |Expired(before, cutoff)| - total
      {
        hide Expired, Kept;
        DeleteSome(before, cutoff, gone);
        if crash.Some? && batches == crash.value {
          return None;
        }
        var deleted, batch := DeleteBatch(cutoff);
        OneMoreBatch(before, cutoff, gone, batch);
        gone, total := gone + batch, total + deleted;
        if deleted < BATCH_SIZE {
          AllGone(before, cutoff, gone);
          return Some(total);
        }
        batches := batches + 1;
      }
    }

    // When a transaction fails, the cleanup ends with the batches before it deleted, all
    // of them full, and no row to keep touched.
    method RunBudgetCleanup(year: int, month: int, retention: int, crash: Option<nat>) returns (report: Option<Report>)
      requires 1 <= year <= 9999 && 1 <= month <= 12
      modifies this
      ensures var cutoff, expired := Cutoff(year, month, retention), Expired(old(rows), Cutoff(year, month, retention));
        && (report.None? <==> crash.Some? && crash.value <= |expired| / 10000)
        && (report.Some? ==> rows == Kept(old(rows), cutoff) && report.value == Report(|expired|, cutoff))
        && (report.None? ==> Partial(old(rows), rows, cutoff, 10000 * crash.value))
    {
      var cutoff := CutoffPeriod(year, month, retention);
      var totalDeleted := DeleteExpired(cutoff, crash);
      return if totalDeleted.None? then None else Some(Report(totalDeleted.value, cutoff));
    }
  }
}
