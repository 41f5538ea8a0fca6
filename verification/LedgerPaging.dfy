/** How the pages of the recalculation move through the rows: the next page begins at the time at
which the last one ended, and skips the rows of that time that the last page held. Rows of that
time on pages before the last one are not skipped; so a moment with very many rows can hold the
paging up. */
module LedgerPaging {
  import opened LedgerRows
  import opened LedgerPages

  datatype Cursor = Cursor(mts: int, skipped: set<int>)

  /** The rows in question, oldest first, each with its own key. */
  predicate IsListing(rows: seq<Row>)
  {
    IsOldestFirst(rows) && forall j, k :: 0 <= j < k < |rows| ==> rows[j].rowId != rows[k].rowId
  }

  predicate IsNext(r: Row, c: Cursor) { c.mts <= r.mts && r.rowId !in c.skipped }

  function Nexts(rows: seq<Row>, c: Cursor): seq<Row>
  {
    if rows == [] then [] else (if IsNext(rows[0], c) then [rows[0]] else []) + Nexts(rows[1..], c)
  }

  function PageAt(rows: seq<Row>, c: Cursor, limit: nat): seq<Row> { Take(Nexts(rows, c), limit) }

  function After(elems: seq<Row>): Cursor
    requires elems != []
  {
    var mts := elems[|elems| - 1].mts;
    Cursor(mts, set r | r in elems && r.mts == mts :: r.rowId)
  }

  /** The cursor after `k` pages; an empty page ends the paging. */
  function CursorAt(rows: seq<Row>, start: Cursor, limit: nat, k: nat): Cursor
  {
    if k == 0 then start
    else
      var c := CursorAt(rows, start, limit, k - 1);
      var elems := PageAt(rows, c, limit);
      if elems == [] then c else After(elems)
  }

  function NthPage(rows: seq<Row>, start: Cursor, limit: nat, k: nat): seq<Row>
  {
    PageAt(rows, CursorAt(rows, start, limit, k), limit)
  }

  /** The row at `n` is on one of the first `k` pages. */
  ghost predicate IsReached(rows: seq<Row>, start: Cursor, limit: nat, k: nat, n: nat)
    requires n < |rows|
  {
    exists j: nat :: j < k && rows[n] in NthPage(rows, start, limit, j)
  }

  /** Nowhere do two pages of rows share a moment and another row follow them. */
  ghost predicate CanAdvance(rows: seq<Row>, limit: nat) { forall i: nat :: CanAdvanceAt(rows, limit, i) }

  predicate CanAdvanceAt(rows: seq<Row>, limit: nat, i: nat)
  {
    i + 2 * limit < |rows| && 0 < limit ==> rows[i].mts < rows[i + 2 * limit - 1].mts
  }

  // ----- The shape of a page

  lemma {:induction false} NextsAppend(a: seq<Row>, b: seq<Row>, c: Cursor)
    ensures Nexts(a + b, c) == Nexts(a, c) + Nexts(b, c)
  {
    if a == [] {
      assert a + b == b;
    } else {
      assert (a + b)[1..] == a[1..] + b;
      NextsAppend(a[1..], b, c);
    }
  }

  lemma {:induction false} NextsAll(a: seq<Row>, c: Cursor)
    ensures (forall k :: 0 <= k < |a| ==> IsNext(a[k], c)) ==> Nexts(a, c) == a
    ensures (forall k :: 0 <= k < |a| ==> !IsNext(a[k], c)) ==> Nexts(a, c) == []
  {
    if a != [] {
      NextsAll(a[1..], c);
      if forall k :: 0 <= k < |a| ==> IsNext(a[k], c) {
        forall k | 0 <= k < |a[1..]| ensures IsNext(a[1..][k], c) { assert a[k + 1] == a[1..][k]; }
      }
      if forall k :: 0 <= k < |a| ==> !IsNext(a[k], c) {
        forall k | 0 <= k < |a[1..]| ensures !IsNext(a[1..][k], c) { assert a[k + 1] == a[1..][k]; }
      }
    }
  }

  /** The cursor skips exactly the stretch from `a` to `p` of the rows from its moment on, which starts
      at `lo`. */
  predicate Skips(rows: seq<Row>, c: Cursor, lo: nat, a: nat, p: nat)
    requires lo <= a <= p <= |rows|
  {
    && (forall i :: 0 <= i < lo ==> rows[i].mts < c.mts)
    && (forall i :: lo <= i < |rows| ==> c.mts <= rows[i].mts)
    && (forall i :: 0 <= i < |rows| ==> (rows[i].rowId in c.skipped <==> a <= i < p))
  }

  lemma StretchOn(rows: seq<Row>, c: Cursor, x: nat, y: nat)
    requires x <= y <= |rows| && forall i :: x <= i < y ==> IsNext(rows[i], c)
    ensures Nexts(rows[x..y], c) == rows[x..y]
  {
    forall k | 0 <= k < y - x ensures IsNext(rows[x..y][k], c) { assert rows[x..y][k] == rows[x + k]; }
    NextsAll(rows[x..y], c);
  }

  lemma StretchOff(rows: seq<Row>, c: Cursor, x: nat, y: nat)
    requires x <= y <= |rows| && forall i :: x <= i < y ==> !IsNext(rows[i], c)
    ensures Nexts(rows[x..y], c) == []
  {
    forall k | 0 <= k < y - x ensures !IsNext(rows[x..y][k], c) { assert rows[x..y][k] == rows[x + k]; }
    NextsAll(rows[x..y], c);
  }

  lemma PageShape(rows: seq<Row>, c: Cursor, limit: nat, lo: nat, a: nat, p: nat)
    requires lo <= a <= p <= |rows| && Skips(rows, c, lo, a, p)
    ensures PageAt(rows, c, limit) == Take(rows[lo..a] + rows[p..], limit)
  {
    hide Nexts, Take;
    StretchOff(rows, c, 0, lo);
    StretchOn(rows, c, lo, a);
    StretchOff(rows, c, a, p);
    StretchOn(rows, c, p, |rows|);
    hide Skips, IsNext;
    NextsOfFour(rows[0..lo], rows[lo..a], rows[a..p], rows[p..|rows|], c);
    FourParts(rows, lo, a, p);
  }

  lemma FourParts(rows: seq<Row>, lo: nat, a: nat, p: nat)
    requires lo <= a <= p <= |rows|
    ensures rows[0..lo] + (rows[lo..a] + (rows[a..p] + rows[p..|rows|])) == rows
    ensures rows[p..|rows|] == rows[p..]
  {
  }

  lemma NextsOfFour(w: seq<Row>, x: seq<Row>, y: seq<Row>, z: seq<Row>, c: Cursor)
    requires Nexts(w, c) == [] && Nexts(x, c) == x && Nexts(y, c) == [] && Nexts(z, c) == z
    ensures Nexts(w + (x + (y + z)), c) == x + z
  {
    hide Nexts;
    NextsAppend(w, x + (y + z), c);
    NextsAppend(x, y + z, c);
    NextsAppend(y, z, c);
  }

  // ----- As long as the paging can advance, it does

  /** Everything before `p` has been on a page. Of the moment of the cursor, the rows from `a` to `p`
      were on the last page; those from `lo` to `a` were on the page before, and then the last page
      was full. */
  predicate InStep(rows: seq<Row>, c: Cursor, limit: nat, lo: nat, a: nat, p: nat)
    requires lo <= a <= p <= |rows|
  {
    && Skips(rows, c, lo, a, p)
    && (forall i :: lo <= i < p ==> rows[i].mts == c.mts)
    && (a == lo || p - a == limit)
  }

  lemma LastOfPage(rows: seq<Row>, lo: nat, a: nat, p: nat, q: nat)
    requires lo <= a <= p < q <= |rows|
    ensures var elems := rows[lo..a] + rows[p..q];
            |elems| == (a - lo) + (q - p) && elems[|elems| - 1] == rows[q - 1]
            && (forall r :: r in elems <==> exists i :: (lo <= i < a || p <= i < q) && rows[i] == r)
  {
    var elems := rows[lo..a] + rows[p..q];
    forall i | lo <= i < a || p <= i < q ensures rows[i] in elems {
      if i < a { assert elems[i - lo] == rows[i]; } else { assert elems[(a - lo) + (i - p)] == rows[i]; }
    }
  }

  /** The first row of the moment of the row at `q - 1`. */
  lemma {:induction false} MomentStarts(rows: seq<Row>, q: nat) returns (lo: nat)
    requires IsOldestFirst(rows) && 0 < q <= |rows|
    ensures lo < q
    ensures forall i :: 0 <= i < lo ==> rows[i].mts < rows[q - 1].mts
    ensures forall i :: lo <= i < q ==> rows[i].mts == rows[q - 1].mts
    decreases q
  {
    if q == 1 || rows[q - 2].mts < rows[q - 1].mts {
      lo := q - 1;
      forall i | 0 <= i < lo ensures rows[i].mts < rows[q - 1].mts { assert NotAfter(rows[i], rows[q - 2]); }
    } else {
      assert NotAfter(rows[q - 2], rows[q - 1]);
      lo := MomentStarts(rows, q - 1);
    }
  }

  lemma MomentIsShort(rows: seq<Row>, limit: nat, lo: nat, p: nat)
    requires CanAdvance(rows, limit) && 0 < limit && lo < p < |rows|
    requires forall i :: lo <= i < p ==> rows[i].mts == rows[lo].mts
    ensures p < lo + 2 * limit
  {
    assert CanAdvanceAt(rows, limit, lo);
  }

  /** Where the paging stands after the next page. */
  lemma NextPage(rows: seq<Row>, c: Cursor, limit: nat, lo: nat, a: nat, p: nat) returns (q: nat)
    requires IsListing(rows) && 0 < limit && lo <= a <= p < |rows| && InStep(rows, c, limit, lo, a, p)
    requires CanAdvance(rows, limit)
    ensures p < q <= |rows| && a - lo < limit
    ensures PageAt(rows, c, limit) == rows[lo..a] + rows[p..q]
    ensures q < |rows| ==> q - p == limit - (a - lo)
  {
    PageShape(rows, c, limit, lo, a, p);
    if a > lo { MomentIsShort(rows, limit, lo, p); }
    var all := rows[lo..a] + rows[p..];
    q := if |all| <= limit then |rows| else p + limit - (a - lo);
    assert |all| > limit ==> all[..limit] == rows[lo..a] + rows[p..q];
    assert rows[p..|rows|] == rows[p..];
  }

  /** If the moment of the last row of the page had begun before the page, it is the moment of the
      cursor, and no row of it was left from the page before the last. */
  lemma MomentGoesOn(rows: seq<Row>, c: Cursor, limit: nat, lo: nat, a: nat, p: nat, q: nat, lo': nat)
    requires IsListing(rows) && 0 < limit && lo <= a <= p < q < |rows| && InStep(rows, c, limit, lo, a, p)
    requires CanAdvance(rows, limit) && q - p == limit - (a - lo)
    requires lo' < q && (forall i :: 0 <= i < lo' ==> rows[i].mts < rows[q - 1].mts)
    requires forall i :: lo' <= i < q ==> rows[i].mts == rows[q - 1].mts
    ensures lo' < p ==> lo' == lo == a && rows[q - 1].mts == c.mts
    ensures p <= lo' ==> forall i :: lo <= i < a ==> rows[i].mts < rows[q - 1].mts
  {
    if lo' < p {
      assert rows[p - 1].mts == rows[q - 1].mts && c.mts <= rows[q - 1].mts;
      assert lo < p && rows[lo].mts == c.mts;
      assert rows[lo'].mts == rows[q - 1].mts;
      if a > lo { MomentIsShort(rows, limit, lo, q); }
    }
  }

  lemma SkipsOfPage(rows: seq<Row>, c: Cursor, elems: seq<Row>, lo: nat, a: nat, p: nat, q: nat, lo': nat, a': nat)
    requires IsListing(rows) && lo <= a <= p < q <= |rows| && elems == rows[lo..a] + rows[p..q]
    requires lo' <= a' < q && p <= a' && (forall i :: 0 <= i < lo' ==> rows[i].mts < rows[q - 1].mts)
    requires forall i :: lo' <= i < q ==> rows[i].mts == rows[q - 1].mts
    requires a' == lo' || a' == p
    requires forall i :: lo <= i < a ==> rows[i].mts < rows[q - 1].mts
    ensures Skips(rows, After(elems), lo', a', q)
  {
    LastOfPage(rows, lo, a, p, q);
    var d := After(elems);
    forall i | a' <= i < q ensures rows[i].rowId in d.skipped { assert rows[i] in elems; }
    forall i | 0 <= i < |rows| && rows[i].rowId in d.skipped ensures a' <= i < q {
      var r :| r in elems && r.mts == d.mts && r.rowId == rows[i].rowId;
      var j :| (lo <= j < a || p <= j < q) && rows[j] == r;
      assert i == j;
    }
    forall i | lo' <= i < |rows| ensures d.mts <= rows[i].mts {
      if i >= q { assert NotAfter(rows[q - 1], rows[i]); }
    }
  }

  lemma StepForward(rows: seq<Row>, c: Cursor, limit: nat, lo: nat, a: nat, p: nat) returns
      (lo': nat, a': nat, q: nat)
    requires IsListing(rows) && 0 < limit && lo <= a <= p < |rows| && InStep(rows, c, limit, lo, a, p)
    requires CanAdvance(rows, limit)
    ensures p < q <= |rows|
    ensures PageAt(rows, c, limit) == rows[lo..a] + rows[p..q]
    ensures q < |rows| ==>
              && lo' <= a' <= q && InStep(rows, After(PageAt(rows, c, limit)), limit, lo', a', q)
              && 2 * q + (if a > lo then limit else 0) >= 2 * p + limit + (if a' > lo' then limit else 0)
  {
    q := NextPage(rows, c, limit, lo, a, p);
    lo', a' := 0, 0;
    if q < |rows| {
      lo' := MomentStarts(rows, q);
      a' := if lo' < p then p else lo';
      MomentGoesOn(rows, c, limit, lo, a, p, q, lo');
      LastOfPage(rows, lo, a, p, q);
      hide CanAdvance, InStep, IsListing;
      SkipsOfPage(rows, c, PageAt(rows, c, limit), lo, a, p, q, lo', a');
      assert InStep(rows, After(PageAt(rows, c, limit)), limit, lo', a', q);
    }
  }
}
