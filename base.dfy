/**
 * Shared vocabulary of the model: optional values and results, the clock,
 * the decimal rendering of ids, and the three table scans every service uses
 * (first matching row, all matching rows, a projection of every row).
 */
module Base {

  datatype Option<+T> = None | Some(value: T)

  datatype Result<+T, +E> = Success(value: T) | Failure(error: E)

  // ---------------------------------------------------------------------------
  // Time. An instant is a whole number of seconds since 0001-01-01T00:00:00Z,
  // the origin of .NET's DateTime, so DateTime.MinValue is 0.

  const DateTimeMinValue: int := 0

  const OneHour: int := 3600

  /** SqlDateTime.MinValue, 1753-01-01: the earliest DateTime SqlClient accepts as a parameter. */
  const SqlDateTimeMin: int := 55287792000

  /** Whether SqlClient can send this DateTime; an earlier one makes the command throw. */
  predicate SqlRange(t: int) {
    SqlDateTimeMin <= t
  }

  /** A reading of DateTime.UtcNow, which always lies in SQL's range. */
  type Instant = t: int | SqlDateTimeMin <= t witness SqlDateTimeMin

  // ---------------------------------------------------------------------------
  // Decimal rendering of a non-negative id (int.ToString()).

  function Digit(d: nat): (c: char)
    requires d < 10
  {
    ('0' as int + d) as char
  }

  function Decimal(n: nat): (s: string)
    ensures 1 <= |s|
    ensures n < 10 <==> |s| == 1
  {
    if n < 10 then [Digit(n)] else Decimal(n / 10) + [Digit(n % 10)]
  }

  /** Distinct ids render as distinct strings. */
  lemma {:induction false} DecimalInjective(m: nat, n: nat)
    requires Decimal(m) == Decimal(n)
    ensures m == n
  {
    if m >= 10 {
      var s, t := Decimal(m), Decimal(n);
      assert s == Decimal(m / 10) + [Digit(m % 10)];
      assert t == Decimal(n / 10) + [Digit(n % 10)];
      assert s[..|s| - 1] == Decimal(m / 10);
      assert t[..|t| - 1] == Decimal(n / 10);
      DecimalInjective(m / 10, n / 10);
      assert Digit(m % 10) == s[|s| - 1] == t[|t| - 1] == Digit(n % 10);
    }
  }

  lemma DecimalDistinct(m: nat, n: nat)
    requires m != n
    ensures Decimal(m) != Decimal(n)
  {
    if Decimal(m) == Decimal(n) {
      DecimalInjective(m, n);
    }
  }

  /** An int in decimal, with a leading minus when negative. */
  function IdText(n: int): string {
    if n < 0 then "-" + Decimal(-n) else Decimal(n)
  }

  // ---------------------------------------------------------------------------
  // Table scans.

  /** Position of the first element satisfying p: the row `if (reader.Read())` sees. */
  function IndexWhere<T>(s: seq<T>, p: T -> bool): (r: Option<nat>)
    ensures r.Some? ==> r.value < |s| && p(s[r.value])
    ensures r.Some? ==> forall j :: 0 <= j < r.value ==> !p(s[j])
    ensures r.None? ==> forall j :: 0 <= j < |s| ==> !p(s[j])
  {
    if s == [] then None
    else if p(s[0]) then Some(0)
    else
      match IndexWhere(s[1..], p)
      case None => None
      case Some(k) => Some(k + 1)
  }

  /** Two scans that agree position by position find the same position. */
  lemma {:induction false} IndexWhereAgrees<T, U>(s: seq<T>, p: T -> bool, t: seq<U>, q: U -> bool)
    requires |s| == |t|
    requires forall i :: 0 <= i < |s| ==> p(s[i]) == q(t[i])
    ensures IndexWhere(s, p) == IndexWhere(t, q)
  {
    if s != [] {
      IndexWhereAgrees(s[1..], p, t[1..], q);
    }
  }

  function FirstWhere<T>(s: seq<T>, p: T -> bool): Option<T>
  {
    match IndexWhere(s, p)
    case None => None
    case Some(k) => Some(s[k])
  }

  /** The elements satisfying keep, in order: what a `while (reader.Read())` loop collects. */
  function Filter<T(!new)>(s: seq<T>, keep: T -> bool): (r: seq<T>)
    ensures |r| <= |s|
    ensures forall x :: x in r <==> x in s && keep(x)
  {
    if s == [] then []
    else Filter(s[..|s| - 1], keep) + (if keep(s[|s| - 1]) then [s[|s| - 1]] else [])
  }

  /** Keeping everything keeps the sequence. */
  lemma {:induction false} FilterKeepAll<T(!new)>(s: seq<T>, keep: T -> bool)
    requires forall x :: x in s ==> keep(x)
    ensures Filter(s, keep) == s
  {
    if s != [] {
      FilterKeepAll(s[..|s| - 1], keep);
      assert s[..|s| - 1] + [s[|s| - 1]] == s;
    }
  }

  /** A relation that holds between every earlier and later element still does after filtering. */
  lemma {:induction false} FilterKeepsOrder<T(!new)>(s: seq<T>, keep: T -> bool, before: (T, T) -> bool)
    requires forall i, j :: 0 <= i < j < |s| ==> before(s[i], s[j])
    ensures forall i, j :: 0 <= i < j < |Filter(s, keep)| ==> before(Filter(s, keep)[i], Filter(s, keep)[j])
  {
    if s != [] {
      var init, last := s[..|s| - 1], s[|s| - 1];
      FilterKeepsOrder(init, keep, before);
      var f := Filter(init, keep);
      var r := Filter(s, keep);
      if keep(last) {
        assert r == f + [last];
        forall i, j | 0 <= i < j < |r|
          ensures before(r[i], r[j])
        {
          if j == |f| {
            assert r[i] == f[i] && f[i] in f;
            var k :| 0 <= k < |init| && init[k] == r[i];
            assert before(s[k], s[|s| - 1]);
          } else {
            assert r[i] == f[i] && r[j] == f[j];
            assert before(f[i], f[j]);
          }
        }
      } else {
        assert r == f;
      }
    }
  }

  function Project<T, U>(s: seq<T>, f: T -> U): (r: seq<U>)
  {
    seq(|s|, i requires 0 <= i < |s| => f(s[i]))
  }
}
