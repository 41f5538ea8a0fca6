/** Joining several grouped lists on their timestamps and calculating over the joined rows. */
module MergeData {
  import opened Wrappers

  /** A row of an input; the moment or the values are absent when they are not usable. */
  datatype Item<V> = Item(mts: Option<int>, vals: Option<V>)

  /** A row of the join: under each input, by its place, that input's values. */
  datatype Row<V> = Row(mts: int, vals: map<nat, V>)

  predicate IsValid<V>(t: Item<V>) { t.mts.Some? && t.vals.Some? }

  predicate IsDescending<V>(res: seq<Row<V>>)
  {
    forall j, k :: 0 <= j < k < |res| ==> res[j].mts > res[k].mts
  }

  predicate HasMts<V>(res: seq<Row<V>>, mts: int) { exists k :: 0 <= k < |res| && res[k].mts == mts }

  function Cell<V>(row: Row<V>, c: nat): Option<V> { if c in row.vals then Some(row.vals[c]) else None }

  /** The last of the first `n` rows of an input that is valid and has the moment. */
  function LastAt<V>(items: seq<Item<V>>, n: nat, mts: int): Option<V>
    requires n <= |items|
  {
    if n == 0 then None
    else if IsValid(items[n - 1]) && items[n - 1].mts.value == mts then items[n - 1].vals
    else LastAt(items, n - 1, mts)
  }

  /** The join of the first `counts[c]` rows of every input `c`: it has a row exactly for the moments of
      the valid rows, and under every input the last values for the moment. */
  ghost predicate IsJoin<V>(inputs: seq<seq<Item<V>>>, counts: seq<nat>, res: seq<Row<V>>)
  {
    && |counts| == |inputs| && IsDescending(res)
    && (forall c :: 0 <= c < |inputs| ==> counts[c] <= |inputs[c]|)
    && (forall r :: 0 <= r < |res| ==> IsJoinedRow(inputs, counts, res[r]))
    && (forall c :: 0 <= c < |inputs| ==> AreAllIn(inputs[c], counts[c], res))
  }

  ghost predicate IsJoinedRow<V>(inputs: seq<seq<Item<V>>>, counts: seq<nat>, row: Row<V>)
    requires |counts| == |inputs| && forall c :: 0 <= c < |inputs| ==> counts[c] <= |inputs[c]|
  {
    && row.vals != map[] && (forall c <- row.vals :: c < |inputs|)
    && (forall c :: 0 <= c < |inputs| ==> Cell(row, c) == LastAt(inputs[c], counts[c], row.mts))
  }

  predicate AreAllIn<V>(items: seq<Item<V>>, n: nat, res: seq<Row<V>>)
    requires n <= |items|
  {
    forall j :: 0 <= j < n && IsValid(items[j]) ==> HasMts(res, items[j].mts.value)
  }

  /** `after` is `res` with the values put under input `c` of the row of the moment. */
  ghost predicate IsPut<V>(res: seq<Row<V>>, mts: int, c: nat, vals: V, after: seq<Row<V>>)
  {
    && IsDescending(after)
    && HasMts(after, mts)
    && (forall r :: 0 <= r < |res| ==> HasMts(after, res[r].mts))
    && (forall r :: 0 <= r < |after| ==>
          if after[r].mts == mts then IsPutRow(res, c, vals, after[r]) else after[r] in res)
  }

  ghost predicate IsPutRow<V>(res: seq<Row<V>>, c: nat, vals: V, row: Row<V>)
  {
    || (!HasMts(res, row.mts) && row.vals == map[c := vals])
    || (exists k :: 0 <= k < |res| && res[k].mts == row.mts && row.vals == res[k].vals[c := vals])
  }

  lemma {:induction false} NoneAt<V>(items: seq<Item<V>>, n: nat, res: seq<Row<V>>, mts: int)
    requires n <= |items| && AreAllIn(items, n, res) && !HasMts(res, mts)
    ensures LastAt(items, n, mts).None?
    decreases n
  {
    if n > 0 { NoneAt(items, n - 1, res, mts); }
  }

  lemma PutRowIsJoined<V>(inputs: seq<seq<Item<V>>>, counts: seq<nat>, res: seq<Row<V>>, c: nat, row: Row<V>)
    requires IsJoin(inputs, counts, res) && c < |inputs| && counts[c] < |inputs[c]|
    requires IsValid(inputs[c][counts[c]]) && row.mts == inputs[c][counts[c]].mts.value
    requires IsPutRow(res, c, inputs[c][counts[c]].vals.value, row)
    ensures IsJoinedRow(inputs, counts[c := counts[c] + 1], row)
  {
    hide IsDescending, AreAllIn;
    var vals := inputs[c][counts[c]].vals.value;
    if HasMts(res, row.mts) {
      var k :| 0 <= k < |res| && res[k].mts == row.mts && row.vals == res[k].vals[c := vals];
      assert IsJoinedRow(inputs, counts, res[k]);
      forall d | 0 <= d < |inputs| && d != c ensures Cell(row, d) == LastAt(inputs[d], counts[d], row.mts) {
        assert Cell(row, d) == Cell(res[k], d);
      }
    } else {
      forall d | 0 <= d < |inputs| && d != c ensures Cell(row, d) == LastAt(inputs[d], counts[d], row.mts) {
        NoneAt(inputs[d], counts[d], res, row.mts);
      }
    }
    assert c in row.vals && row.vals[c] == vals;
  }

  lemma PutKeepsJoin<V>(inputs: seq<seq<Item<V>>>, counts: seq<nat>, res: seq<Row<V>>, c: nat, after: seq<Row<V>>)
    requires IsJoin(inputs, counts, res) && c < |inputs| && counts[c] < |inputs[c]|
    requires var t := inputs[c][counts[c]];
             if IsValid(t) then IsPut(res, t.mts.value, c, t.vals.value, after) else after == res
    ensures IsJoin(inputs, counts[c := counts[c] + 1], after)
  {
    hide IsDescending, IsPutRow;
    var t := inputs[c][counts[c]];
    var next := counts[c := counts[c] + 1];
    forall r | 0 <= r < |after| ensures IsJoinedRow(inputs, next, after[r]) {
      if IsValid(t) && after[r].mts == t.mts.value {
        PutRowIsJoined(inputs, counts, res, c, after[r]);
      } else {
        assert after[r] in res;
        OtherRowStays(inputs, counts, c, after[r]);
      }
    }
    forall d | 0 <= d < |inputs| ensures AreAllIn(inputs[d], next[d], after) {
      assert AreAllIn(inputs[d], counts[d], res);
      AllStayIn(inputs[d], counts[d], res, after);
    }
  }

  lemma OtherRowStays<V>(inputs: seq<seq<Item<V>>>, counts: seq<nat>, c: nat, row: Row<V>)
    requires |counts| == |inputs| && forall d :: 0 <= d < |inputs| ==> counts[d] <= |inputs[d]|
    requires c < |inputs| && counts[c] < |inputs[c]| && IsJoinedRow(inputs, counts, row)
    requires IsValid(inputs[c][counts[c]]) ==> row.mts != inputs[c][counts[c]].mts.value
    ensures IsJoinedRow(inputs, counts[c := counts[c] + 1], row)
  {
  }

  lemma AllStayIn<V>(items: seq<Item<V>>, n: nat, res: seq<Row<V>>, after: seq<Row<V>>)
    requires n <= |items| && AreAllIn(items, n, res) && forall r :: 0 <= r < |res| ==> HasMts(after, res[r].mts)
    ensures AreAllIn(items, n, after)
  {
  }

  // ----- The four places a row can go

  function NewRow<V>(mts: int, c: nat, vals: V): Row<V> { Row(mts, map[c := vals]) }

  lemma PutFirst<V>(res: seq<Row<V>>, mts: int, c: nat, vals: V)
    requires IsDescending(res) && (res != [] ==> res[0].mts < mts)
    ensures IsPut(res, mts, c, vals, [NewRow(mts, c, vals)] + res)
  {
    var after := [NewRow(mts, c, vals)] + res;
    assert after[0].mts == mts;
    forall r | 0 <= r < |res| ensures HasMts(after, res[r].mts) && res[r].mts < mts { assert after[r + 1] == res[r]; }
  }

  lemma PutLast<V>(res: seq<Row<V>>, mts: int, c: nat, vals: V)
    requires IsDescending(res) && (res != [] ==> res[|res| - 1].mts > mts)
    ensures IsPut(res, mts, c, vals, res + [NewRow(mts, c, vals)])
  {
    var after := res + [NewRow(mts, c, vals)];
    assert after[|res|].mts == mts;
    forall r | 0 <= r < |res| ensures HasMts(after, res[r].mts) && res[r].mts > mts { assert after[r] == res[r]; }
  }

  lemma PutOver<V>(res: seq<Row<V>>, k: nat, c: nat, vals: V)
    requires IsDescending(res) && k < |res|
    ensures IsPut(res, res[k].mts, c, vals, res[k := res[k].(vals := res[k].vals[c := vals])])
  {
    var after := res[k := res[k].(vals := res[k].vals[c := vals])];
    assert after[k].mts == res[k].mts;
    forall r | 0 <= r < |res| ensures HasMts(after, res[r].mts) { assert after[r].mts == res[r].mts; }
  }

  lemma PutBetween<V>(res: seq<Row<V>>, k: nat, mts: int, c: nat, vals: V)
    requires IsDescending(res) && 0 < k < |res| && res[k].mts < mts < res[k - 1].mts
    ensures IsPut(res, mts, c, vals, res[..k] + [NewRow(mts, c, vals)] + res[k..])
  {
    hide IsPutRow;
    var after := res[..k] + [NewRow(mts, c, vals)] + res[k..];
    assert after[k].mts == mts;
    forall r | 0 <= r < |res| ensures HasMts(after, res[r].mts) && res[r].mts != mts {
      if r < k { assert after[r] == res[r]; } else { assert after[r + 1] == res[r]; }
    }
    SplicedDescends(res, k, NewRow(mts, c, vals));
    assert IsPutRow(res, c, vals, after[k]) by { NewRowIsPut(res, mts, c, vals); }
  }

  lemma NewRowIsPut<V>(res: seq<Row<V>>, mts: int, c: nat, vals: V)
    requires !HasMts(res, mts)
    ensures IsPutRow(res, c, vals, NewRow(mts, c, vals))
  {
  }

  lemma SplicedDescends<V>(res: seq<Row<V>>, k: nat, row: Row<V>)
    requires IsDescending(res) && 0 < k < |res| && res[k].mts < row.mts < res[k - 1].mts
    ensures var after := res[..k] + [row] + res[k..];
            IsDescending(after) && forall r :: 0 <= r < |after| && r != k ==> after[r].mts != row.mts && after[r] in res
  {
    var after := res[..k] + [row] + res[k..];
    forall r | 0 <= r < |after| && r != k
      ensures after[r] == res[if r < k then r else r - 1] && after[r].mts != row.mts
    {
    }
  }

  // ----- The loops

  /** One row of one input goes into the result. */
  method PutItem<V>(res: seq<Row<V>>, t: Item<V>, c: nat) returns (after: seq<Row<V>>)
    requires IsDescending(res)
    ensures if IsValid(t) then IsPut(res, t.mts.value, c, t.vals.value, after) else after == res
  {
    hide IsPut;
    after := res;
    if !IsValid(t) { return; }
    var mts, vals := t.mts.value, t.vals.value;
    if |res| != 0 && res[0].mts < mts {
      after := [NewRow(mts, c, vals)] + res;
      PutFirst(res, mts, c, vals);
      return;
    }
    if |res| == 0 || res[|res| - 1].mts > mts {
      after := res + [NewRow(mts, c, vals)];
      PutLast(res, mts, c, vals);
      return;
    }
    for index := |res| downto 0
      invariant index < |res| ==> res[index].mts < mts
      invariant index > 0
    {
      if mts == res[index].mts {
        after := res[index := res[index].(vals := res[index].vals[c := vals])];
        PutOver(res, index, c, vals);
        return;
      }
      if index + 1 < |res| && res[index + 1].mts < mts && res[index].mts > mts {
        after := res[..index + 1] + [NewRow(mts, c, vals)] + res[index + 1..];
        PutBetween(res, index + 1, mts, c, vals);
        return;
      }
    }
  }

  function Min(a: nat, b: nat): nat { if a <= b then a else b }

  function MaxLength<V>(inputs: seq<seq<Item<V>>>): (r: nat)
    ensures forall c :: 0 <= c < |inputs| ==> |inputs[c]| <= r
  {
    if inputs == [] then 0
    else
      var k := |inputs| - 1;
      var rest := MaxLength(inputs[..k]);
      assert forall c :: 0 <= c < k ==> inputs[..k][c] == inputs[c];
      if rest < |inputs[k]| then |inputs[k]| else rest
  }

  /** How far every input has been read in round `i` before input `c`. */
  function Counts<V>(inputs: seq<seq<Item<V>>>, i: nat, c: nat): (r: seq<nat>)
    ensures |r| == |inputs|
    ensures forall d :: 0 <= d < |inputs| ==> r[d] == Min(|inputs[d]|, if d < c then i + 1 else i)
  {
    seq(|inputs|, d requires 0 <= d < |inputs| => Min(|inputs[d]|, if d < c then i + 1 else i))
  }

  /** The result is the full outer join of the inputs on the moment, whatever their order. */
  method MergeInputs<V>(inputs: seq<seq<Item<V>>>) returns (res: seq<Row<V>>)
    ensures IsJoin(inputs, Counts(inputs, MaxLength(inputs), 0), res)
  {
    hide IsJoin, IsPut;
    res := [];
    var maxLength := MaxLength(inputs);
    NothingJoined(inputs);
    for i := 0 to maxLength
      invariant IsJoin(inputs, Counts(inputs, i, 0), res)
    {
      for c := 0 to |inputs|
        invariant IsJoin(inputs, Counts(inputs, i, c), res)
      {
        JoinDescends(inputs, Counts(inputs, i, c), res);
        NextCount(inputs, i, c);
        if i < |inputs[c]| {
          ghost var before := res;
          res := PutItem(res, inputs[c][i], c);
          PutKeepsJoin(inputs, Counts(inputs, i, c), before, c, res);
        }
      }
      assert Counts(inputs, i, |inputs|) == Counts(inputs, i + 1, 0);
    }
  }

  lemma NothingJoined<V>(inputs: seq<seq<Item<V>>>)
    ensures IsJoin(inputs, Counts(inputs, 0, 0), [])
  {
  }

  lemma JoinDescends<V>(inputs: seq<seq<Item<V>>>, counts: seq<nat>, res: seq<Row<V>>)
    requires IsJoin(inputs, counts, res)
    ensures IsDescending(res)
  {
  }

  lemma NextCount<V>(inputs: seq<seq<Item<V>>>, i: nat, c: nat)
    requires c < |inputs|
    ensures if i < |inputs[c]| then
              Counts(inputs, i, c)[c] == i && Counts(inputs, i, c + 1) == Counts(inputs, i, c)[c := i + 1]
            else Counts(inputs, i, c + 1) == Counts(inputs, i, c)
  {
  }

  // ----- What the join is

  predicate IsAt<V>(inputs: seq<seq<Item<V>>>, c: nat, j: nat, mts: int)
  {
    c < |inputs| && j < |inputs[c]| && IsValid(inputs[c][j]) && inputs[c][j].mts.value == mts
  }

  lemma {:induction false} LastAtIsLast<V>(items: seq<Item<V>>, n: nat, mts: int) returns (j: nat)
    requires n <= |items|
    ensures LastAt(items, n, mts).Some? ==>
              && j < n && IsValid(items[j]) && items[j].mts.value == mts && LastAt(items, n, mts) == items[j].vals
    ensures forall k :: (if LastAt(items, n, mts).Some? then j else -1) < k < n && IsValid(items[k]) ==>
              items[k].mts.value != mts
    decreases n
  {
    if n == 0 {
      j := 0;
    } else if IsValid(items[n - 1]) && items[n - 1].mts.value == mts {
      j := n - 1;
    } else {
      j := LastAtIsLast(items, n - 1, mts);
    }
  }

  /** The joined list is strictly descending, has exactly the moments of the valid rows, each once, and
      holds under every input the input's last values for the moment. */
  lemma JoinIsOuterJoin<V>(inputs: seq<seq<Item<V>>>, res: seq<Row<V>>)
    requires IsJoin(inputs, Counts(inputs, MaxLength(inputs), 0), res)
    ensures IsDescending(res)
    ensures forall mts: int :: HasMts(res, mts) <==> exists c, j :: IsAt(inputs, c, j, mts)
    ensures forall r, c :: 0 <= r < |res| && 0 <= c < |inputs| ==>
              Cell(res[r], c) == LastAt(inputs[c], |inputs[c]|, res[r].mts)
  {
    hide IsDescending;
    var counts := Counts(inputs, MaxLength(inputs), 0);
    forall r | 0 <= r < |res| ensures exists c, j :: IsAt(inputs, c, j, res[r].mts) {
      RowComesFromItem(inputs, counts, res[r]);
    }
    forall c: nat, j: nat, mts: int | IsAt(inputs, c, j, mts) ensures HasMts(res, mts) {
      assert AreAllIn(inputs[c], counts[c], res);
    }
    forall r, c | 0 <= r < |res| && 0 <= c < |inputs|
      ensures Cell(res[r], c) == LastAt(inputs[c], |inputs[c]|, res[r].mts)
    {
      assert IsJoinedRow(inputs, counts, res[r]) && counts[c] == |inputs[c]|;
    }
  }

  lemma RowComesFromItem<V>(inputs: seq<seq<Item<V>>>, counts: seq<nat>, row: Row<V>)
    requires |counts| == |inputs| && forall c :: 0 <= c < |inputs| ==> counts[c] <= |inputs[c]|
    requires IsJoinedRow(inputs, counts, row)
    ensures exists c, j :: IsAt(inputs, c, j, row.mts)
  {
    var c :| c in row.vals;
    var j := LastAtIsLast(inputs[c], counts[c], row.mts);
    assert Cell(row, c).Some?;
    assert IsAt(inputs, c, j, row.mts);
  }

  lemma SameVals<V>(inputs: seq<seq<Item<V>>>, counts: seq<nat>, a: Row<V>, b: Row<V>)
    requires |counts| == |inputs| && forall c :: 0 <= c < |inputs| ==> counts[c] <= |inputs[c]|
    requires IsJoinedRow(inputs, counts, a) && IsJoinedRow(inputs, counts, b) && a.mts == b.mts
    ensures a == b
  {
    forall c: nat ensures (c in a.vals <==> c in b.vals) && (c in a.vals ==> a.vals[c] == b.vals[c]) {
      if c < |inputs| { assert Cell(a, c) == Cell(b, c); }
    }
    assert a.vals == b.vals;
  }

  lemma {:induction false} SameMoments<V>(a: seq<Row<V>>, b: seq<Row<V>>)
    requires IsDescending(a) && IsDescending(b)
    requires forall mts: int :: HasMts(a, mts) <==> HasMts(b, mts)
    ensures |a| == |b| && forall k :: 0 <= k < |a| ==> a[k].mts == b[k].mts
    decreases |a|
  {
    if a == [] {
      FirstHasMts(b);
    } else {
      FirstHasMts(a);
      FirstHasMts(b);
      forall mts: int ensures HasMts(a[1..], mts) <==> HasMts(b[1..], mts) {
        HasMtsBehind(a, mts);
        HasMtsBehind(b, mts);
      }
      SameMoments(a[1..], b[1..]);
    }
  }

  lemma FirstHasMts<V>(b: seq<Row<V>>)
    ensures b != [] ==> HasMts(b, b[0].mts)
  {
  }

  lemma HasMtsBehind<V>(a: seq<Row<V>>, mts: int)
    requires IsDescending(a) && a != []
    ensures HasMts(a[1..], mts) <==> HasMts(a, mts) && mts != a[0].mts
  {
    if HasMts(a, mts) && mts != a[0].mts {
      var k :| 0 <= k < |a| && a[k].mts == mts;
      assert a[1..][k - 1].mts == mts;
    }
    if HasMts(a[1..], mts) {
      var k :| 0 <= k < |a[1..]| && a[1..][k].mts == mts;
      assert a[k + 1].mts == mts;
    }
  }

  /** There is only one join of the inputs. */
  lemma JoinIsUnique<V>(inputs: seq<seq<Item<V>>>, a: seq<Row<V>>, b: seq<Row<V>>)
    requires IsJoin(inputs, Counts(inputs, MaxLength(inputs), 0), a)
    requires IsJoin(inputs, Counts(inputs, MaxLength(inputs), 0), b)
    ensures a == b
  {
    hide IsJoinedRow, HasMts;
    var counts := Counts(inputs, MaxLength(inputs), 0);
    JoinIsOuterJoin(inputs, a);
    JoinIsOuterJoin(inputs, b);
    SameMoments(a, b);
    forall k | 0 <= k < |a| ensures a[k] == b[k] {
      SameVals(inputs, counts, a[k], b[k]);
    }
  }
}
