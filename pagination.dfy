/** The page arithmetic of the account listing: the `page` and `limit`
    query parameters with their defaults, the number of accounts skipped,
    the window of accounts returned, and `totalPages`. */
module Pagination {
  import opened Wrappers

  const DEFAULT_PAGE: int := 1
  const DEFAULT_LIMIT: int := 10

  /** `parseInt(q) || fallback`: `q` is `None` when `parseInt` yields NaN;
      NaN and 0 are falsy, so both give the fallback, and any other integer,
      negative ones included, is kept. */
  function OrDefault(q: Option<int>, fallback: int): (r: int)
    ensures fallback != 0 ==> r != 0
    ensures q.Some? && q.value != 0 ==> r == q.value
    ensures (q.None? || q == Some(0)) ==> r == fallback
  {
    if q.Some? && q.value != 0 then q.value else fallback
  }

  /** `(page - 1) * limit` */
  function Skip(page: int, limit: int): int {
    (page - 1) * limit
  }

  function Abs(x: int): nat {
    if x < 0 then -x else x
  }

  function Min(a: nat, b: nat): nat {
    if a <= b then a else b
  }

  /** `Math.ceil(total / limit)` for a non-zero integer `limit`: the least
      integer not below the quotient. */
  function CeilDiv(total: nat, limit: int): (r: int)
    requires limit != 0
    ensures limit > 0 ==> r >= 0 && r * limit >= total && (r - 1) * limit < total
    ensures limit < 0 ==> r <= 0 && r * limit <= total && (r - 1) * limit > total
  {
    if limit > 0 then
      var q := (total + limit - 1) / limit;
      assert q * limit + (total + limit - 1) % limit == total + limit - 1;
      assert (q - 1) * limit == q * limit - limit;
      q
    else
      var m := total / -limit;
      assert m * -limit + total % -limit == total;
      assert (-m - 1) * limit == m * -limit + -limit;
      -m
  }

  /** `.skip(skip).limit(count)` on a collection in its natural order: the
      accounts at positions skip, skip + 1, ..., at most `count` of them. */
  function Window<T>(s: seq<T>, skip: nat, count: nat): (w: seq<T>)
    ensures |w| == if skip >= |s| then 0 else Min(count, |s| - skip)
    ensures forall k | 0 <= k < |w| :: w[k] == s[skip + k]
  {
    if skip >= |s| then [] else s[skip..skip + Min(count, |s| - skip)]
  }

  /** With a positive limit, pages 1 .. totalPages cover every account: the
      account at position i lies on page i / limit + 1, and on no other. */
  lemma PagesCoverAll(total: nat, limit: int, i: nat, page: int)
    requires limit > 0 && i < total
    ensures var p := i / limit + 1;
      && 1 <= p <= CeilDiv(total, limit)
      && Skip(p, limit) <= i < Skip(p, limit) + limit
    ensures Skip(page, limit) <= i < Skip(page, limit) + limit ==> page == i / limit + 1
  {
    var p := i / limit + 1;
    var c := CeilDiv(total, limit);
    assert Skip(p, limit) == (i / limit) * limit;
    if c < p {
      MulMonotone(c, p - 1, limit);
      assert false;
    }
    if Skip(page, limit) <= i < Skip(page, limit) + limit {
      if page < p {
        MulMonotone(page, p - 1, limit);
        assert false;
      } else if page > p {
        MulMonotone(p, page - 1, limit);
        assert false;
      }
    }
  }

  /** Every page past the last one is empty. */
  lemma PagesBeyondLastAreEmpty<T>(s: seq<T>, limit: int, page: int)
    requires limit > 0 && page > CeilDiv(|s|, limit)
    ensures Skip(page, limit) >= |s|
    ensures Window(s, Skip(page, limit), limit) == []
  {
    MulMonotone(CeilDiv(|s|, limit), page - 1, limit);
  }

  lemma MulMonotone(a: int, b: int, m: int)
    requires a <= b && m > 0
    ensures a * m <= b * m
  {
    assert b * m - a * m == (b - a) * m;
  }

  /** Twenty-five accounts at ten per page: the second page is full and there
      are three pages in all. */
  lemma SecondOfThreePages<T>(s: seq<T>)
    requires |s| == 25
    ensures |Window(s, Skip(2, 10), 10)| == 10
    ensures CeilDiv(|s|, 10) == 3
  {
  }
}
