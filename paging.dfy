/**
 * The pagination arithmetic the list endpoints share: `skip = (page - 1) * limit`,
 * `take = limit`, and `pages = Math.ceil(total / limit)`.
 */
module Paging {
  import opened Wrappers
  import Seqs

  /** `parseInt(param || default)` for a parameter that is absent, empty or an integer. */
  function PageParam(raw: Option<int>, default: int): int {
    match raw
    case None => default
    case Some(v) => v
  }

  /** The `pagination` block of a list reply. */
  datatype Pagination = Pagination(page: int, limit: int, total: nat, pages: Option<int>)

  function Offset(page: int, limit: int): int {
    (page - 1) * limit
  }

  /** `Math.ceil(total / limit)` as it reaches the JSON reply: a zero limit gives a value
      that is not finite, which the reply writes as `null`. */
  function CeilPages(total: nat, limit: int): (pages: Option<int>)
    ensures pages.None? <==> limit == 0
    ensures limit > 0 ==>
      && pages.value >= 0 && pages.value * limit >= total
      && (total == 0 || (pages.value - 1) * limit < total)
    ensures limit < 0 ==> pages.value <= 0
  {
    if limit == 0 then None
    else if limit > 0 then
      var p := (total + limit - 1) / limit;
      CeilBounds(total, limit);
      Some(p)
    else Some(-(total / -limit))
  }

  lemma CeilBounds(total: nat, limit: int)
    requires limit > 0
    ensures var p := (total + limit - 1) / limit;
      p >= 0 && p * limit >= total && (total == 0 || (p - 1) * limit < total)
  {
    var p := (total + limit - 1) / limit;
    var m := (total + limit - 1) % limit;
    assert p * limit + m == total + limit - 1;
    assert 0 <= m < limit;
    if total == 0 {
      assert p == 0;
    }
  }

  /** `i` moved into `0..n`. */
  function Clamp(i: int, n: nat): (c: nat)
    ensures c <= n
    ensures 0 <= i <= n ==> c == i
  {
    if i < 0 then 0 else if i > n then n else i
  }

  /** `skip` and then `take` rows from the front, for non-negative arguments. */
  function Forward<T>(rows: seq<T>, skip: nat, take: nat): seq<T> {
    if skip >= |rows| then []
    else if skip + take <= |rows| then rows[skip..skip + take]
    else rows[skip..]
  }

  /** `skip`/`take` as the query engine applies them: a negative skip makes the query
      fail; a negative take reverses the order, skips and takes `-take` rows, and reverses
      the result back, so that both count from the end of the list. */
  function Window<T>(rows: seq<T>, skip: int, take: int): (r: Option<seq<T>>)
    ensures r.None? <==> skip < 0
    ensures r.Some? && take >= 0 ==>
      r.value == rows[Clamp(skip, |rows|)..Clamp(skip + take, |rows|)]
    ensures r.Some? && take < 0 ==>
      r.value == rows[Clamp(|rows| - skip + take, |rows|)..Clamp(|rows| - skip, |rows|)]
    ensures r.Some? ==> |r.value| <= (if take < 0 then -take else take)
    ensures r.Some? && take >= 0 ==>
      forall k :: 0 <= k < |r.value| ==> skip + k < |rows| && r.value[k] == rows[skip + k]
    ensures r.Some? && 0 <= take && skip + take <= |rows| ==> |r.value| == take
    ensures r.Some? && take < 0 && skip - take <= |rows| ==> |r.value| == -take
  {
    if skip < 0 then None
    else if take >= 0 then Some(Forward(rows, skip, take))
    else
      var back := Forward(Seqs.Reverse(rows), skip, -take);
      BackwardSlice(rows, skip, -take);
      Some(Seqs.Reverse(back))
  }

  /** Reading `take` rows after `skip` in reverse order and turning them round again gives
      the slice that ends `skip` rows before the end. */
  lemma BackwardSlice<T>(rows: seq<T>, skip: nat, take: nat)
    ensures Seqs.Reverse(Forward(Seqs.Reverse(rows), skip, take))
         == rows[Clamp(|rows| - skip - take, |rows|)..Clamp(|rows| - skip, |rows|)]
  {
    var n := |rows|;
    var rev := Seqs.Reverse(rows);
    var lo, hi := Clamp(skip, n), Clamp(skip + take, n);
    assert Forward(rev, skip, take) == rev[lo..hi];
    Seqs.ReverseSlice(rows, lo, hi);
  }

  /** With a positive limit every row appears on exactly one of the pages 1..pages, at
      position `i % limit` of page `i / limit + 1`. */
  lemma {:induction false} EveryRowOnAPage<T>(rows: seq<T>, limit: int, i: nat)
    requires limit > 0 && i < |rows|
    ensures var page := i / limit + 1;
      && 1 <= page <= CeilPages(|rows|, limit).value
      && Window(rows, Offset(page, limit), limit).Some?
      && var w := Window(rows, Offset(page, limit), limit).value;
      && i % limit < |w| && w[i % limit] == rows[i]
  {
    var q, m := i / limit, i % limit;
    DivMod(i, limit);
    PageInRange(|rows|, limit, q, m);
    OffsetOfNext(q, limit);
    WindowAt(rows, q * limit, limit, m);
  }

  lemma DivMod(i: nat, limit: int)
    requires limit > 0
    ensures (i / limit) * limit + i % limit == i && 0 <= i % limit < limit && i / limit >= 0
  {
  }

  lemma OffsetOfNext(q: int, limit: int)
    ensures Offset(q + 1, limit) == q * limit
  {
  }

  /** A row index `q * limit + m` below the total lies on page `q + 1`, and that page is
      one of the pages counted. */
  lemma PageInRange(total: nat, limit: int, q: nat, m: nat)
    requires limit > 0 && q * limit + m < total
    ensures q + 1 <= CeilPages(total, limit).value
  {
    var pages := CeilPages(total, limit).value;
    if q >= pages {
      MulLe(pages, q, limit);
    }
  }

  /** Position `m` of a window that starts at `skip` holds row `skip + m`, when that row
      exists and `m` is below the window size. */
  lemma WindowAt<T>(rows: seq<T>, skip: int, take: int, m: int)
    requires 0 <= skip && 0 <= m < take && skip + m < |rows|
    ensures Window(rows, skip, take).Some?
    ensures m < |Window(rows, skip, take).value| && Window(rows, skip, take).value[m] == rows[skip + m]
  {
  }

  lemma MulLe(a: int, b: int, c: int)
    requires a <= b && c > 0
    ensures a * c <= b * c
  {
    assert b * c - a * c == (b - a) * c;
  }
}
