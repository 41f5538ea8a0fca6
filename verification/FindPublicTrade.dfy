/** The binary search for the public trade that prices a transaction. */
module FindPublicTrade {
  import opened Wrappers

  datatype PubTrade = PubTrade(mts: int, price: real)

  predicate IsNewestFirst(ts: seq<PubTrade>) { forall j, k :: 0 <= j < k < |ts| ==> ts[j].mts >= ts[k].mts }

  /** The trade at `k` was made at `mts`, or it stands next to the place where such a trade would be:
      all before it are newer and all behind it are older than `mts`. */
  predicate IsNeighbour(ts: seq<PubTrade>, mts: int, k: nat)
  {
    && k < |ts|
    && (|| ts[k].mts == mts
        || ((forall m :: 0 <= m < k ==> ts[m].mts > mts) && (forall m :: k < m < |ts| ==> ts[m].mts < mts)))
  }

  /** The search ends with the trade of that moment if there is one and with a neighbour otherwise. */
  method Find(ts: seq<PubTrade>, mts: int) returns (r: Option<PubTrade>)
    requires IsNewestFirst(ts)
    ensures r.None? <==> ts == []
    ensures r.Some? ==> exists k: nat :: IsNeighbour(ts, mts, k) && r.value == ts[k]
    ensures (exists k :: 0 <= k < |ts| && ts[k].mts == mts) ==> r.Some? && r.value.mts == mts
  {
    var startIndex, endIndex := 0, |ts| - 1;
    var middleIndex: Option<nat> := None;
    while startIndex <= endIndex
      invariant 0 <= startIndex <= endIndex + 1 <= |ts|
      invariant forall m :: 0 <= m < startIndex ==> ts[m].mts > mts
      invariant forall m :: endIndex < m < |ts| ==> ts[m].mts < mts
      invariant middleIndex.None? ==> startIndex == 0 && endIndex == |ts| - 1
      invariant middleIndex.Some? ==> middleIndex.value + 1 == startIndex || middleIndex.value == endIndex + 1
      invariant middleIndex.Some? ==> middleIndex.value < |ts|
    {
      var middle := (startIndex + endIndex) / 2;
      middleIndex := Some(middle);
      if ts[middle].mts == mts {
        assert IsNeighbour(ts, mts, middle);
        return Some(ts[middle]);
      }
      if mts > ts[middle].mts { endIndex := middle - 1; } else { startIndex := middle + 1; }
    }
    if middleIndex.None? { return None; }
    assert IsNeighbour(ts, mts, middleIndex.value);
    r := Some(ts[middleIndex.value]);
  }
}
