/**
  Dates as the statistics compare them (internal/stats/stats.go,
  internal/stats/persist.go): as text of the layout 2006-01-02, which orders
  days as the calendar does.
 */
module Calendar {
  import opened Stats

  // The texts agree up to a place at which the one has ended, or has the
  // smaller character.
  ghost predicate SmallerAt(a: string, b: string, i: nat) {
    && i <= |a| && i < |b| && a[..i] == b[..i]
    && (i == |a| || a[i] < b[i])
  }

  // The order of strings, without recursion: a front part comes first, else
  // the first difference decides.
  lemma {:induction false} BeforeIff(a: string, b: string)
    ensures Before(a, b) <==> exists i: nat :: SmallerAt(a, b, i)
  {
    if a == "" || b == "" || a[0] != b[0] {
      assert b != "" && (a == "" || a[0] < b[0]) ==> SmallerAt(a, b, 0);
      assert forall i: nat :: i > 0 && SmallerAt(a, b, i) ==> a[..i][0] == a[0] && b[..i][0] == b[0];
    } else {
      BeforeIff(a[1..], b[1..]);
      if j: nat :| SmallerAt(a, b, j) {
        assert j > 0;
        ShiftedByOne(a, b, j - 1);
      }
      if j: nat :| SmallerAt(a[1..], b[1..], j) {
        ShiftedByOne(a, b, j);
      }
    }
  }

  lemma ShiftedByOne(a: string, b: string, i: nat)
    requires a != "" && b != "" && a[0] == b[0]
    ensures SmallerAt(a[1..], b[1..], i) <==> SmallerAt(a, b, i + 1)
  {
    if i < |a| && i < |b| {
      assert a[..i + 1] == [a[0]] + a[1..][..i] && b[..i + 1] == [b[0]] + b[1..][..i];
      assert a[1..][..i] == a[..i + 1][1..] && b[1..][..i] == b[..i + 1][1..];
    }
  }

  /* ----- days ----- */

  datatype Day = Day(year: nat, month: nat, day: nat)

  predicate IsDay(d: Day) {
    d.year < 10000 && d.month < 100 && d.day < 100
  }

  predicate Earlier(a: Day, b: Day) {
    || a.year < b.year
    || (a.year == b.year && a.month < b.month)
    || (a.year == b.year && a.month == b.month && a.day < b.day)
  }

  // A number with leading zeros.
  function Padded(n: nat, width: nat): string {
    if width == 0 then "" else Padded(n / 10, width - 1) + ["0123456789"[n % 10]]
  }

  function Power(width: nat): nat {
    if width == 0 then 1 else 10 * Power(width - 1)
  }

  function DateKey(d: Day): string {
    Padded(d.year, 4) + ("-" + (Padded(d.month, 2) + ("-" + Padded(d.day, 2))))
  }

  lemma {:induction false} PaddedLength(n: nat, width: nat)
    ensures |Padded(n, width)| == width
  {
    if width > 0 {
      PaddedLength(n / 10, width - 1);
    }
  }

  // Texts of one length are ordered by what precedes, then by what follows.
  lemma {:induction false} BeforeConcat(a: string, b: string, x: string, y: string)
    requires |a| == |b|
    ensures Before(a + x, b + y) <==> Before(a, b) || (a == b && Before(x, y))
  {
    if a == "" {
      assert a + x == x && b + y == y;
    } else {
      BeforeConcat(a[1..], b[1..], x, y);
      assert (a + x)[1..] == a[1..] + x && (b + y)[1..] == b[1..] + y;
      assert a == [a[0]] + a[1..] && b == [b[0]] + b[1..];
    }
  }

  lemma DigitOrder(m: nat, n: nat)
    requires m < 10 && n < 10
    ensures Before(["0123456789"[m]], ["0123456789"[n]]) <==> m < n
    ensures "0123456789"[m] == "0123456789"[n] <==> m == n
  {
    assert Before(["0123456789"[m]], ["0123456789"[n]]) <==> "0123456789"[m] < "0123456789"[n];
  }

  // Padded numbers are ordered as numbers.
  lemma {:induction false} PaddedOrder(m: nat, n: nat, width: nat)
    requires m < Power(width) && n < Power(width)
    ensures Before(Padded(m, width), Padded(n, width)) <==> m < n
    ensures Padded(m, width) == Padded(n, width) <==> m == n
  {
    if width > 0 {
      PaddedOrder(m / 10, n / 10, width - 1);
      PaddedLength(m / 10, width - 1);
      PaddedLength(n / 10, width - 1);
      DigitOrder(m % 10, n % 10);
      BeforeConcat(Padded(m / 10, width - 1), Padded(n / 10, width - 1), ["0123456789"[m % 10]], ["0123456789"[n % 10]]);
      LastDigit(Padded(m / 10, width - 1), Padded(n / 10, width - 1), "0123456789"[m % 10], "0123456789"[n % 10]);
    }
  }

  lemma LastDigit(a: string, b: string, x: char, y: char)
    ensures a + [x] == b + [y] <==> a == b && x == y
  {
    if a + [x] == b + [y] {
      assert (a + [x])[|a|] == x && (b + [y])[|b|] == y;
      assert a == (a + [x])[..|a|] && b == (b + [y])[..|b|];
    }
  }

  // The text of a day comes before that of another exactly when the day does.
  lemma DateOrder(a: Day, b: Day)
    requires IsDay(a) && IsDay(b)
    ensures Before(DateKey(a), DateKey(b)) <==> Earlier(a, b)
  {
    PartOrder(a.year, b.year, 4);
    PartOrder(a.month, b.month, 2);
    PartOrder(a.day, b.day, 2);
    BeforeConcat(Padded(a.year, 4), Padded(b.year, 4), "-" + (Padded(a.month, 2) + ("-" + Padded(a.day, 2))),
                 "-" + (Padded(b.month, 2) + ("-" + Padded(b.day, 2))));
    BeforeConcat("-", "-", Padded(a.month, 2) + ("-" + Padded(a.day, 2)), Padded(b.month, 2) + ("-" + Padded(b.day, 2)));
    BeforeConcat(Padded(a.month, 2), Padded(b.month, 2), "-" + Padded(a.day, 2), "-" + Padded(b.day, 2));
    BeforeConcat("-", "-", Padded(a.day, 2), Padded(b.day, 2));
    BeforeIsTotal("-", "-");
  }

  lemma PartOrder(m: nat, n: nat, width: nat)
    requires (width == 4 && m < 10000 && n < 10000) || (width == 2 && m < 100 && n < 100)
    ensures |Padded(m, width)| == |Padded(n, width)| == width
    ensures Before(Padded(m, width), Padded(n, width)) <==> m < n
    ensures Padded(m, width) == Padded(n, width) <==> m == n
  {
    assert Power(2) == 100 && Power(4) == 10000;
    PaddedLength(m, width);
    PaddedLength(n, width);
    PaddedOrder(m, n, width);
  }

  /* ----- what pruning and ranges mean ----- */

  // Pruning keeps the buckets of the cutoff's day and later ones, no others.
  lemma KeptIffNotEarlier(daily: map<string, map<string, Aggregate>>, cutoff: Day, d: Day)
    requires IsDay(cutoff) && IsDay(d)
    ensures DateKey(d) in Kept(daily, DateKey(cutoff)) <==> DateKey(d) in daily && !Earlier(d, cutoff)
  {
    DateOrder(d, cutoff);
  }

  // A range holds its two ends and the days between.
  lemma RangeIffBetween(keys: set<string>, since: Day, until: Day, d: Day)
    requires IsDay(since) && IsDay(until) && IsDay(d)
    ensures DateKey(d) in Dates(keys, DateKey(since), DateKey(until)) <==> DateKey(d) in keys && !Earlier(d, since) && !Earlier(until, d)
    ensures DateKey(d) in Dates(keys, DateKey(since), "") <==> DateKey(d) in keys && !Earlier(d, since)
    ensures DateKey(d) in Dates(keys, "", DateKey(until)) <==> DateKey(d) in keys && !Earlier(until, d)
    ensures Dates(keys, "", "") == keys
  {
    DateOrder(d, since);
    DateOrder(until, d);
    PaddedLength(since.year, 4);
    PaddedLength(until.year, 4);
  }
}
