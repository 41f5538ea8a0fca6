/** Which rows the paging reaches: all of them, exactly when no moment holds it up. */
module LedgerCoverage {
  import opened LedgerRows
  import opened LedgerPaging

  /** Where the paging begins: at the moment of the first row, with nothing skipped. */
  predicate IsStart(rows: seq<Row>, start: Cursor)
  {
    start.skipped == {} && forall i :: 0 <= i < |rows| ==> start.mts <= rows[i].mts
  }

  /** After `k` pages exactly the rows before `p` have been reached, at least half a page for each. */
  ghost predicate IsAlong(rows: seq<Row>, start: Cursor, limit: nat, k: nat, lo: nat, a: nat, p: nat)
  {
    && p <= |rows|
    && (forall i :: 0 <= i < |rows| ==> (IsReached(rows, start, limit, k, i) <==> i < p))
    && (p < |rows| ==>
          && lo <= a <= p && InStep(rows, CursorAt(rows, start, limit, k), limit, lo, a, p)
          && 2 * p >= RowsOf(k, limit) + (if a > lo then limit else 0))
  }

  function RowsOf(pages: nat, limit: nat): nat { pages * limit }

  lemma OneMorePage(k: nat, limit: nat)
    requires 0 < k
    ensures RowsOf(k, limit) == RowsOf(k - 1, limit) + limit
  {
  }

  lemma ReachedMore(rows: seq<Row>, start: Cursor, limit: nat, k: nat, next: nat, p: nat, q: nat, lo: nat, a: nat)
    requires IsListing(rows) && lo <= a <= p <= q <= |rows| && next == k + 1
    requires forall i :: 0 <= i < |rows| ==> (IsReached(rows, start, limit, k, i) <==> i < p)
    requires if p < |rows| then NthPage(rows, start, limit, k) == rows[lo..a] + rows[p..q] else q == p
    ensures forall i :: 0 <= i < |rows| ==> (IsReached(rows, start, limit, next, i) <==> i < q)
  {
    hide NthPage, IsListing, IsReached;
    if p < |rows| { InTwoStretches(rows, lo, a, p, q); }
    forall i | 0 <= i < |rows| ensures IsReached(rows, start, limit, next, i) <==> i < q {
      ReachedBy(rows, start, limit, k, next, i);
    }
  }

  lemma ReachedBy(rows: seq<Row>, start: Cursor, limit: nat, k: nat, next: nat, i: nat)
    requires i < |rows| && next == k + 1
    ensures IsReached(rows, start, limit, next, i)
            <==> IsReached(rows, start, limit, k, i) || rows[i] in NthPage(rows, start, limit, k)
  {
    hide NthPage;
    if IsReached(rows, start, limit, k, i) {
      var j: nat :| j < k && rows[i] in NthPage(rows, start, limit, j);
    }
  }

  /** Every page reaches new rows as long as there are any. */
  lemma {:induction false} PagesReach(rows: seq<Row>, start: Cursor, limit: nat, k: nat)
      returns (lo: nat, a: nat, p: nat)
    requires IsListing(rows) && 0 < limit && IsStart(rows, start) && CanAdvance(rows, limit)
    ensures lo <= a <= p && IsAlong(rows, start, limit, k, lo, a, p)
  {
    if k == 0 {
      lo, a, p := 0, 0, 0;
      hide IsListing, CanAdvance;
    } else {
      lo, a, p := PagesReach(rows, start, limit, k - 1);
      if p < |rows| {
        var c := CursorAt(rows, start, limit, k - 1);
        var lo', a', q := StepForward(rows, c, limit, lo, a, p);
        hide PageAt, InStep, CanAdvance, IsListing, IsStart, IsReached, RowsOf;
        ReachedMore(rows, start, limit, k - 1, k, p, q, lo, a);
        OneMorePage(k, limit);
        assert CursorAt(rows, start, limit, k) == After(PageAt(rows, c, limit));
        if q == |rows| { lo, a, p := 0, 0, q; } else { lo, a, p := lo', a', q; }
      } else {
        ReachedMore(rows, start, limit, k - 1, k, p, p, lo, a);
      }
    }
  }

  /** After any number of pages the rows reached are a prefix, and the next page makes it longer as long
      as there are rows behind it. */
  lemma PrefixGrows(rows: seq<Row>, start: Cursor, limit: nat, k: nat, next: nat) returns (p: nat, q: nat)
    requires IsListing(rows) && 0 < limit && IsStart(rows, start) && CanAdvance(rows, limit) && next == k + 1
    ensures p <= q <= |rows| && (p < |rows| ==> p < q)
    ensures forall i :: 0 <= i < |rows| ==> (IsReached(rows, start, limit, k, i) <==> i < p)
    ensures forall i :: 0 <= i < |rows| ==> (IsReached(rows, start, limit, next, i) <==> i < q)
  {
    hide IsListing, CanAdvance, IsStart, IsReached, InStep;
    var lo, a, lo', a';
    lo, a, p := PagesReach(rows, start, limit, k);
    lo', a', q := PagesReach(rows, start, limit, next);
    if q < p { ReachedBy(rows, start, limit, k, next, q); }
    if p < |rows| {
      NextRowIsOnPage(rows, start, limit, k, lo, a, p);
      ReachedBy(rows, start, limit, k, next, p);
    }
  }

  lemma NextRowIsOnPage(rows: seq<Row>, start: Cursor, limit: nat, k: nat, lo: nat, a: nat, p: nat)
    requires IsListing(rows) && 0 < limit && CanAdvance(rows, limit)
    requires p < |rows| && lo <= a <= p && IsAlong(rows, start, limit, k, lo, a, p)
    ensures rows[p] in NthPage(rows, start, limit, k)
  {
    hide IsListing, CanAdvance, IsReached, InStep, PageAt;
    var lo', a', q := StepForward(rows, CursorAt(rows, start, limit, k), limit, lo, a, p);
    assert (rows[lo..a] + rows[p..q])[a - lo] == rows[p];
  }

  // ----- A moment that holds the paging up

  datatype Pattern = Head | Middle | Rest

  /** The three sets of rows of a long moment, from `lo` on, that a page can leave to be skipped. */
  predicate InPattern(pattern: Pattern, lo: nat, x: nat, limit: nat, i: nat)
  {
    match pattern
    case Head => lo <= i < lo + x
    case Middle => lo + x <= i < lo + x + limit
    case Rest => lo <= i < lo + x || lo + x + limit <= i < lo + 2 * limit
  }

  /** Two pages of rows from `lo` on share the moment `mts`, and another row follows. */
  predicate IsLongMoment(rows: seq<Row>, limit: nat, mts: int, lo: nat)
  {
    && 0 < limit && lo + 2 * limit < |rows|
    && (forall i :: 0 <= i < lo ==> rows[i].mts < mts)
    && (forall i :: lo <= i < lo + 2 * limit ==> rows[i].mts == mts)
    && (forall i :: lo <= i < |rows| ==> mts <= rows[i].mts)
  }

  predicate SkipsPattern(rows: seq<Row>, c: Cursor, pattern: Pattern, lo: nat, x: nat, limit: nat)
  {
    forall i :: 0 <= i < |rows| ==> (rows[i].rowId in c.skipped <==> InPattern(pattern, lo, x, limit, i))
  }

  predicate IsBefore(rows: seq<Row>, c: Cursor, mts: int, lo: nat)
  {
    c.mts < mts && forall i :: lo <= i < |rows| ==> rows[i].rowId !in c.skipped
  }

  /** The pattern that the next page leaves behind. */
  function NextPattern(pattern: Pattern): Pattern { if pattern == Middle then Rest else Middle }

  predicate IsHeld(rows: seq<Row>, c: Cursor, limit: nat, mts: int, lo: nat, pattern: Pattern, x: nat)
  {
    && IsListing(rows) && IsLongMoment(rows, limit, mts, lo) && c.mts == mts && x <= limit
    && SkipsPattern(rows, c, pattern, lo, x, limit)
  }

  function PatternPage(rows: seq<Row>, limit: nat, lo: nat, pattern: Pattern, x: nat): seq<Row>
    requires lo + 2 * limit < |rows| && x <= limit
  {
    if pattern == Middle then rows[lo..lo + x] + rows[lo + x + limit..lo + 2 * limit]
    else rows[lo + x..lo + x + limit]
  }

  lemma PageInHead(rows: seq<Row>, c: Cursor, limit: nat, mts: int, lo: nat, x: nat)
    requires IsHeld(rows, c, limit, mts, lo, Head, x)
    ensures PageAt(rows, c, limit) == PatternPage(rows, limit, lo, Head, x)
  {
    PageShape(rows, c, limit, lo, lo, lo + x);
    assert rows[lo..lo] + rows[lo + x..] == rows[lo + x..];
  }

  lemma PageInMiddle(rows: seq<Row>, c: Cursor, limit: nat, mts: int, lo: nat, x: nat)
    requires IsHeld(rows, c, limit, mts, lo, Middle, x)
    ensures PageAt(rows, c, limit) == PatternPage(rows, limit, lo, Middle, x)
  {
    PageShape(rows, c, limit, lo, lo + x, lo + x + limit);
    hide IsHeld, PageAt;
    var all := rows[lo..lo + x] + rows[lo + x + limit..];
    assert all[..limit] == rows[lo..lo + x] + rows[lo + x + limit..lo + 2 * limit];
  }

  lemma RestStretches(rows: seq<Row>, c: Cursor, limit: nat, mts: int, lo: nat, x: nat)
    requires IsHeld(rows, c, limit, mts, lo, Rest, x)
    ensures lo + x + limit <= |rows| && lo + 2 * limit < |rows| && x <= limit
    ensures Nexts(rows[0..lo + x], c) == []
    ensures Nexts(rows[lo + x..lo + x + limit], c) == rows[lo + x..lo + x + limit]
  {
    hide Nexts;
    StretchOff(rows, c, 0, lo + x);
    StretchOn(rows, c, lo + x, lo + x + limit);
  }

  lemma PageInRest(rows: seq<Row>, c: Cursor, limit: nat, mts: int, lo: nat, x: nat)
    requires IsHeld(rows, c, limit, mts, lo, Rest, x)
    ensures PageAt(rows, c, limit) == PatternPage(rows, limit, lo, Rest, x)
  {
    hide Nexts, IsHeld;
    var y := lo + x + limit;
    RestStretches(rows, c, limit, mts, lo, x);
    NextsAppend(rows[lo + x..y], rows[y..], c);
    NextsAppend(rows[0..lo + x], rows[lo + x..y] + rows[y..], c);
    assert rows == rows[0..lo + x] + (rows[lo + x..y] + rows[y..]);
    assert Nexts(rows, c)[..limit] == rows[lo + x..y];
  }

  lemma PageInPattern(rows: seq<Row>, c: Cursor, limit: nat, mts: int, lo: nat, pattern: Pattern, x: nat)
    requires IsHeld(rows, c, limit, mts, lo, pattern, x)
    ensures PageAt(rows, c, limit) == PatternPage(rows, limit, lo, pattern, x)
  {
    match pattern
    case Head => PageInHead(rows, c, limit, mts, lo, x);
    case Middle => PageInMiddle(rows, c, limit, mts, lo, x);
    case Rest => PageInRest(rows, c, limit, mts, lo, x);
  }

  /** A page on which every row has the moment `mts` is what the next one skips. */
  lemma AfterMoment(rows: seq<Row>, elems: seq<Row>, mts: int)
    requires IsListing(rows) && elems != [] && (forall r <- elems :: r.mts == mts && r in rows)
    ensures After(elems).mts == mts
    ensures forall i :: 0 <= i < |rows| ==> (rows[i].rowId in After(elems).skipped <==> rows[i] in elems)
  {
    assert elems[|elems| - 1] in elems;
    forall i | 0 <= i < |rows| && rows[i].rowId in After(elems).skipped ensures rows[i] in elems {
      var r :| r in elems && r.rowId == rows[i].rowId;
      var j :| 0 <= j < |rows| && rows[j] == r;
      assert i == j;
    }
  }

  lemma InTwoStretches(rows: seq<Row>, b: nat, d: nat, e: nat, f: nat)
    requires IsListing(rows) && b <= d <= |rows| && e <= f <= |rows|
    ensures forall i :: 0 <= i < |rows| ==> (rows[i] in rows[b..d] + rows[e..f] <==> b <= i < d || e <= i < f)
    ensures forall r <- rows[b..d] + rows[e..f] :: r in rows
  {
    var all := rows[b..d] + rows[e..f];
    forall i | 0 <= i < |rows| && (b <= i < d || e <= i < f) ensures rows[i] in all {
      assert rows[i] == if b <= i < d then all[i - b] else all[d - b + i - e];
    }
    forall i | 0 <= i < |rows| && rows[i] in all ensures b <= i < d || e <= i < f {
      var k :| 0 <= k < |all| && all[k] == rows[i];
      var j := if k < d - b then b + k else e + (k - (d - b));
      assert rows[j] == all[k] && j == i;
    }
  }

  lemma PatternPageHolds(rows: seq<Row>, limit: nat, lo: nat, pattern: Pattern, x: nat)
    requires IsListing(rows) && lo + 2 * limit < |rows| && x <= limit && 0 < limit
    ensures var elems := PatternPage(rows, limit, lo, pattern, x);
            && elems != []
            && (forall r <- elems :: r in rows)
            && (forall i :: 0 <= i < |rows| ==>
                  (rows[i] in elems <==> InPattern(NextPattern(pattern), lo, x, limit, i)))
  {
    hide IsListing;
    var elems := PatternPage(rows, limit, lo, pattern, x);
    if pattern == Middle {
      InTwoStretches(rows, lo, lo + x, lo + x + limit, lo + 2 * limit);
      assert |elems| == limit;
    } else {
      InTwoStretches(rows, lo + x, lo + x + limit, 0, 0);
      assert elems == rows[lo + x..lo + x + limit] + rows[0..0];
      assert |elems| == limit;
    }
  }

  lemma PatternGoesOn(rows: seq<Row>, c: Cursor, limit: nat, mts: int, lo: nat, pattern: Pattern, x: nat)
    requires IsHeld(rows, c, limit, mts, lo, pattern, x)
    ensures var elems := PageAt(rows, c, limit);
            && elems != [] && IsHeld(rows, After(elems), limit, mts, lo, NextPattern(pattern), x)
            && rows[lo + 2 * limit] !in elems
  {
    PageInPattern(rows, c, limit, mts, lo, pattern, x);
    PatternPageHolds(rows, limit, lo, pattern, x);
    hide PageAt, PatternPage;
    var elems := PageAt(rows, c, limit);
    forall r <- elems ensures r.mts == mts {
      var i :| 0 <= i < |rows| && rows[i] == r;
      assert InPattern(NextPattern(pattern), lo, x, limit, i);
    }
    AfterMoment(rows, elems, mts);
    PatternOfPage(rows, After(elems), elems, pattern, lo, x, limit);
  }

  lemma PatternOfPage(rows: seq<Row>, d: Cursor, elems: seq<Row>, pattern: Pattern, lo: nat, x: nat, limit: nat)
    requires forall i :: 0 <= i < |rows| ==> (rows[i].rowId in d.skipped <==> rows[i] in elems)
    requires forall i :: 0 <= i < |rows| ==>
               (rows[i] in elems <==> InPattern(NextPattern(pattern), lo, x, limit, i))
    ensures SkipsPattern(rows, d, NextPattern(pattern), lo, x, limit)
  {
  }

  lemma {:induction false} NextsAreRows(rows: seq<Row>, c: Cursor)
    ensures forall r <- Nexts(rows, c) :: r in rows
  {
    if rows != [] { NextsAreRows(rows[1..], c); }
  }

  /** Rows before `lo` are none of those from `lo` on. */
  lemma OwnKeys(rows: seq<Row>, lo: nat)
    requires IsListing(rows) && lo <= |rows|
    ensures forall i, r :: lo <= i < |rows| && r in rows[..lo] ==> r.rowId != rows[i].rowId
  {
    forall i, r | lo <= i < |rows| && r in rows[..lo] ensures r.rowId != rows[i].rowId {
      var j :| 0 <= j < lo && rows[..lo][j] == r;
      assert rows[j] == r;
    }
  }

  lemma EarlierIsBefore(rows: seq<Row>, elems: seq<Row>, mts: int, lo: nat)
    requires IsListing(rows) && elems != [] && lo <= |rows|
    requires forall i :: 0 <= i < lo ==> rows[i].mts < mts
    requires forall r <- elems :: r in rows[..lo]
    ensures IsBefore(rows, After(elems), mts, lo)
    ensures forall i :: lo <= i < |rows| ==> rows[i] !in elems
  {
    OwnKeys(rows, lo);
    assert elems[|elems| - 1] in elems;
  }

  lemma HeadOfMoment(rows: seq<Row>, head: seq<Row>, elems: seq<Row>, mts: int, lo: nat, x: nat, limit: nat)
    requires IsListing(rows) && IsLongMoment(rows, limit, mts, lo) && 0 < x <= limit
    requires elems == head + rows[lo..lo + x] && forall r <- head :: r in rows[..lo]
    ensures IsHeld(rows, After(elems), limit, mts, lo, Head, x)
    ensures rows[lo + 2 * limit] !in elems
  {
    hide After;
    AfterHead(rows, head, elems, mts, lo, x);
    forall i | 0 <= i < |rows|
      ensures rows[i].rowId in After(elems).skipped <==> InPattern(Head, lo, x, limit, i)
    {
      HeadSkips(rows, head, elems, mts, lo, x, i);
    }
    NotInHead(rows, head, elems, lo, x, lo + 2 * limit);
  }

  lemma AfterHead(rows: seq<Row>, head: seq<Row>, elems: seq<Row>, mts: int, lo: nat, x: nat)
    requires 0 < x && lo + x <= |rows| && rows[lo + x - 1].mts == mts && elems == head + rows[lo..lo + x]
    ensures After(elems).mts == mts
    ensures forall id :: id in After(elems).skipped <==> exists r :: r in elems && r.mts == mts && r.rowId == id
  {
    assert elems[|elems| - 1] == rows[lo + x - 1];
  }

  lemma NotInHead(rows: seq<Row>, head: seq<Row>, elems: seq<Row>, lo: nat, x: nat, i: nat)
    requires IsListing(rows) && lo + x <= i < |rows| && elems == head + rows[lo..lo + x]
    requires forall r <- head :: r in rows[..lo]
    ensures rows[i] !in elems
  {
    forall r | r in elems ensures r.rowId != rows[i].rowId {
      if r in head {
        OwnKeys(rows, lo);
      } else {
        var j :| 0 <= j < x && rows[lo..lo + x][j] == r;
        assert rows[lo + j] == r;
      }
    }
  }

  /** Of the page that ends in the moment, exactly the moment's own rows are skipped next. */
  lemma HeadSkips(rows: seq<Row>, head: seq<Row>, elems: seq<Row>, mts: int, lo: nat, x: nat, i: nat)
    requires IsListing(rows) && 0 < x && lo + x <= |rows| && elems == head + rows[lo..lo + x] && i < |rows|
    requires forall k :: 0 <= k < lo ==> rows[k].mts < mts
    requires forall k :: lo <= k < lo + x ==> rows[k].mts == mts
    requires forall r <- head :: r in rows[..lo]
    ensures rows[i].rowId in After(elems).skipped <==> lo <= i < lo + x
  {
    AfterHead(rows, head, elems, mts, lo, x);
    hide After, IsListing;
    if lo <= i < lo + x { assert rows[i] == rows[lo..lo + x][i - lo] == elems[|head| + i - lo]; }
    if rows[i].rowId in After(elems).skipped {
      var r :| r in elems && r.mts == mts && r.rowId == rows[i].rowId;
      MomentOfHead(rows, mts, lo, r);
      assert r in rows[lo..lo + x];
      var j :| 0 <= j < x && rows[lo..lo + x][j] == r;
      SameKeySameRow(rows, lo + j, i);
    }
  }

  lemma SameKeySameRow(rows: seq<Row>, i: nat, k: nat)
    requires IsListing(rows) && i < |rows| && k < |rows| && rows[i].rowId == rows[k].rowId
    ensures i == k
  {
  }

  lemma MomentOfHead(rows: seq<Row>, mts: int, lo: nat, r: Row)
    requires lo <= |rows| && (forall i :: 0 <= i < lo ==> rows[i].mts < mts) && r.mts == mts
    ensures r !in rows[..lo]
  {
  }

  /** A page that begins before the long moment ends before it or in its first page of rows. */
  lemma PageBefore(rows: seq<Row>, c: Cursor, limit: nat, mts: int, lo: nat) returns (x: nat)
    requires IsListing(rows) && IsLongMoment(rows, limit, mts, lo) && IsBefore(rows, c, mts, lo)
    ensures var elems := PageAt(rows, c, limit);
            && elems != [] && rows[lo + 2 * limit] !in elems
            && (IsBefore(rows, After(elems), mts, lo) || IsHeld(rows, After(elems), limit, mts, lo, Head, x))
  {
    hide Nexts;
    StretchOn(rows, c, lo, |rows|);
    NextsAppend(rows[..lo], rows[lo..], c);
    assert rows == rows[..lo] + rows[lo..] && rows[lo..|rows|] == rows[lo..];
    var head := Nexts(rows[..lo], c);
    NextsAreRows(rows[..lo], c);
    hide IsListing, IsBefore, SkipsPattern;
    var elems := PageAt(rows, c, limit);
    x := 0;
    if |head| >= limit {
      assert elems == head[..limit];
      EarlierIsBefore(rows, elems, mts, lo);
    } else {
      x := limit - |head|;
      assert elems == head + rows[lo..lo + x];
      HeadOfMoment(rows, head, elems, mts, lo, x, limit);
    }
  }

  ghost predicate IsStuck(rows: seq<Row>, c: Cursor, limit: nat, mts: int, lo: nat)
  {
    IsBefore(rows, c, mts, lo) || exists pattern, x :: IsHeld(rows, c, limit, mts, lo, pattern, x)
  }

  lemma {:induction false} StaysStuck(rows: seq<Row>, start: Cursor, limit: nat, mts: int, lo: nat, k: nat)
    requires IsListing(rows) && IsStart(rows, start) && IsLongMoment(rows, limit, mts, lo)
    ensures IsStuck(rows, CursorAt(rows, start, limit, k), limit, mts, lo)
    ensures rows[lo + 2 * limit] !in NthPage(rows, start, limit, k)
  {
    hide PageAt, IsListing, IsLongMoment, IsHeld;
    var c := CursorAt(rows, start, limit, k);
    if k == 0 {
      if start.mts < mts { assert IsBefore(rows, c, mts, lo); }
      else { StartsHeld(rows, start, limit, mts, lo); }
    } else {
      StaysStuck(rows, start, limit, mts, lo, k - 1);
      StuckGoesOn(rows, CursorAt(rows, start, limit, k - 1), limit, mts, lo);
    }
    StuckGoesOn(rows, c, limit, mts, lo);
  }

  lemma StartsHeld(rows: seq<Row>, start: Cursor, limit: nat, mts: int, lo: nat)
    requires IsListing(rows) && IsStart(rows, start) && IsLongMoment(rows, limit, mts, lo) && mts <= start.mts
    ensures IsHeld(rows, start, limit, mts, lo, Head, 0)
  {
    assert start.mts <= rows[lo].mts;
  }

  lemma StuckGoesOn(rows: seq<Row>, c: Cursor, limit: nat, mts: int, lo: nat)
    requires IsListing(rows) && IsLongMoment(rows, limit, mts, lo) && IsStuck(rows, c, limit, mts, lo)
    ensures var elems := PageAt(rows, c, limit);
            elems != [] && IsStuck(rows, After(elems), limit, mts, lo) && rows[lo + 2 * limit] !in elems
  {
    hide PageAt, IsHeld, IsBefore, IsLongMoment, IsListing;
    if IsBefore(rows, c, mts, lo) {
      var x := PageBefore(rows, c, limit, mts, lo);
    } else {
      var pattern, x :| IsHeld(rows, c, limit, mts, lo, pattern, x);
      PatternGoesOn(rows, c, limit, mts, lo, pattern, x);
    }
  }

  /** A moment that holds the paging up starts somewhere. */
  lemma LongMomentStarts(rows: seq<Row>, limit: nat, i: nat) returns (mts: int, lo: nat)
    requires IsListing(rows) && 0 < limit && !CanAdvanceAt(rows, limit, i)
    ensures IsLongMoment(rows, limit, mts, lo)
  {
    mts := rows[i].mts;
    lo := MomentStarts(rows, i + 1);
    forall j | lo <= j < lo + 2 * limit ensures rows[j].mts == mts {
      var last := i + 2 * limit - 1;
      if j > i { assert NotAfter(rows[i], rows[j]) && (j == last || NotAfter(rows[j], rows[last])); }
    }
    forall j | lo <= j < |rows| ensures mts <= rows[j].mts {
      if j > i { assert NotAfter(rows[i], rows[j]); }
    }
  }

  ghost predicate IsEverReached(rows: seq<Row>, start: Cursor, limit: nat, n: nat)
    requires n < |rows|
  {
    exists k: nat :: IsReached(rows, start, limit, k, n)
  }

  /** The main result on the paging: every row is reached exactly when nowhere two pages of rows share
      a moment and another row follows them. */
  lemma EveryRowIsReached(rows: seq<Row>, start: Cursor, limit: nat)
    requires IsListing(rows) && 0 < limit && IsStart(rows, start)
    ensures (forall n: nat :: n < |rows| ==> IsEverReached(rows, start, limit, n)) <==> CanAdvance(rows, limit)
  {
    hide IsListing, IsStart, IsReached, CanAdvance, IsEverReached;
    if CanAdvance(rows, limit) {
      forall n: nat | n < |rows| ensures IsEverReached(rows, start, limit, n) {
        ReachedIfItCan(rows, start, limit, n);
      }
    } else {
      var n := HeldUpOtherwise(rows, start, limit);
    }
  }

  lemma EnoughPages(k: nat, limit: nat)
    requires 0 < limit
    ensures k <= RowsOf(k, limit)
  {
  }

  lemma ReachedIfItCan(rows: seq<Row>, start: Cursor, limit: nat, n: nat)
    requires IsListing(rows) && 0 < limit && IsStart(rows, start) && CanAdvance(rows, limit) && n < |rows|
    ensures IsEverReached(rows, start, limit, n)
  {
    hide IsListing, IsStart, CanAdvance, IsReached;
    var k := 2 * |rows|;
    var lo, a, p := PagesReach(rows, start, limit, k);
    EnoughPages(k, limit);
    assert IsReached(rows, start, limit, k, n);
  }

  lemma HeldUpOtherwise(rows: seq<Row>, start: Cursor, limit: nat) returns (n: nat)
    requires IsListing(rows) && 0 < limit && IsStart(rows, start) && !CanAdvance(rows, limit)
    ensures n < |rows| && !IsEverReached(rows, start, limit, n)
  {
    hide IsListing, IsStart, CanAdvanceAt, IsEverReached;
    var i: nat :| !CanAdvanceAt(rows, limit, i);
    var mts, lo := LongMomentStarts(rows, limit, i);
    n := lo + 2 * limit;
    NeverReached(rows, start, limit, mts, lo, n);
  }

  lemma NeverReached(rows: seq<Row>, start: Cursor, limit: nat, mts: int, lo: nat, n: nat)
    requires IsListing(rows) && IsStart(rows, start) && IsLongMoment(rows, limit, mts, lo) && n == lo + 2 * limit
    ensures !IsEverReached(rows, start, limit, n)
  {
    hide IsListing, IsStart, NthPage, IsStuck;
    forall j: nat ensures rows[n] !in NthPage(rows, start, limit, j) {
      StaysStuck(rows, start, limit, mts, lo, j);
    }
  }
}
