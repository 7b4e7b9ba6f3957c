/** Target selection: the first-wins nearest-zombie scan used by `shoot` and by the
    homing projectiles, and the stable sort-and-slice that picks the closest few
    zombies for multishot and for a lightning strike. */
module Targeting {
  import opened Entities

  /** Index of the first minimum of `keys`: what a left-to-right scan with a strict
      `<` against the best value so far returns. */
  function FirstMin(keys: seq<real>): (r: nat)
    requires |keys| > 0
    ensures r < |keys|
    ensures forall j :: 0 <= j < |keys| ==> keys[r] <= keys[j]
    ensures forall j :: 0 <= j < r ==> keys[r] < keys[j]
    decreases |keys|
  {
    if |keys| == 1 then 0
    else
      var r := FirstMin(keys[..|keys| - 1]);
      if keys[|keys| - 1] < keys[r] then |keys| - 1 else r
  }

  ghost predicate IdsKnown(ids: seq<nat>, spawned: seq<Zombie>)
  {
    forall i :: 0 <= i < |ids| ==> ids[i] < |spawned|
  }

  /** Squared distance from (x, y) of every zombie in `ids`, in order. */
  function DistKeys(ids: seq<nat>, spawned: seq<Zombie>, x: real, y: real): (ks: seq<real>)
    requires IdsKnown(ids, spawned)
    ensures |ks| == |ids|
    ensures forall i :: 0 <= i < |ids| ==>
      ks[i] == SqDist(spawned[ids[i]].x, spawned[ids[i]].y, x, y)
  {
    seq(|ids|, i requires 0 <= i < |ids| => SqDist(spawned[ids[i]].x, spawned[ids[i]].y, x, y))
  }

  /** The zombie a scan over `ids` picks as the closest to (x, y). */
  function Nearest(ids: seq<nat>, spawned: seq<Zombie>, x: real, y: real): (id: nat)
    requires |ids| > 0 && IdsKnown(ids, spawned)
    ensures id in ids && id < |spawned|
    ensures forall j :: 0 <= j < |ids| ==>
      SqDist(spawned[id].x, spawned[id].y, x, y) <= SqDist(spawned[ids[j]].x, spawned[ids[j]].y, x, y)
  {
    ids[FirstMin(DistKeys(ids, spawned, x, y))]
  }

  /** The nearest-zombie scan of the source (script.js:238-250, 431-443): a loop over
      the zombies that keeps the current best and replaces it only on a strictly
      smaller squared distance. It returns the index of the winner in `ids`. */
  method FindNearest(ids: seq<nat>, spawned: seq<Zombie>, x: real, y: real) returns (k: nat)
    requires |ids| > 0 && IdsKnown(ids, spawned)
    ensures k < |ids| && ids[k] == Nearest(ids, spawned, x, y)
    ensures forall j :: 0 <= j < |ids| ==>
      SqDist(spawned[ids[k]].x, spawned[ids[k]].y, x, y) <= SqDist(spawned[ids[j]].x, spawned[ids[j]].y, x, y)
    ensures forall j :: 0 <= j < k ==>
      SqDist(spawned[ids[k]].x, spawned[ids[k]].y, x, y) < SqDist(spawned[ids[j]].x, spawned[ids[j]].y, x, y)
  {
    ghost var keys := DistKeys(ids, spawned, x, y);
    var found := false;
    var minDist := 0.0;
    k := 0;
    var i := 0;
    while i < |ids|
      invariant 0 <= i <= |ids|
      invariant found <==> i > 0
      invariant found ==> k < i && k == FirstMin(keys[..i]) && minDist == keys[k]
    {
      var zombie := spawned[ids[i]];
      var dist := SqDist(zombie.x, zombie.y, x, y);
      assert keys[..i + 1][..i] == keys[..i];
      if !found || dist < minDist {
        minDist := dist;
        k := i;
        found := true;
      }
      i := i + 1;
    }
    assert keys[..|ids|] == keys;
  }

  /** A candidate of a multi-target selection: a zombie id and its distance key. */
  datatype Target = Target(id: nat, distance: real)

  ghost predicate SortedByDistance(ts: seq<Target>)
  {
    forall i, j :: 0 <= i < j < |ts| ==> ts[i].distance <= ts[j].distance
  }

  /** Inserts `t` into a sorted sequence, after every element whose distance is not
      larger: the step of a stable insertion sort. */
  function Insert(sorted: seq<Target>, t: Target): (r: seq<Target>)
    requires SortedByDistance(sorted)
    ensures |r| == |sorted| + 1
    ensures SortedByDistance(r)
    ensures multiset(r) == multiset(sorted) + multiset{t}
    ensures forall i :: 0 <= i < |r| ==> r[i] == t || r[i] in sorted
    decreases |sorted|
  {
    if |sorted| == 0 then [t]
    else if sorted[|sorted| - 1].distance <= t.distance then sorted + [t]
    else
      var last := sorted[|sorted| - 1];
      var front := sorted[..|sorted| - 1];
      assert sorted == front + [last];
      var r := Insert(front, t) + [last];
      assert forall i :: 0 <= i < |r| - 1 ==> r[i] == t || r[i] in front;
      r
  }

  /** Sorts by ascending distance, keeping equal distances in their original order
      (as `Array.prototype.sort` must). */
  function SortByDistance(ts: seq<Target>): (r: seq<Target>)
    ensures |r| == |ts|
    ensures SortedByDistance(r)
    ensures multiset(r) == multiset(ts)
    decreases |ts|
  {
    if |ts| == 0 then []
    else
      assert ts == ts[..|ts| - 1] + [ts[|ts| - 1]];
      Insert(SortByDistance(ts[..|ts| - 1]), ts[|ts| - 1])
  }

  /** `ts.sort(by distance).slice(0, k)`: the `k` closest candidates. */
  function Closest(ts: seq<Target>, k: nat): (r: seq<Target>)
    ensures |r| == Min(k, |ts|)
    ensures SortedByDistance(r)
    ensures multiset(r) <= multiset(ts)
    ensures forall i :: 0 <= i < |r| ==> r[i] in ts
    ensures forall x, i :: x in multiset(ts) - multiset(r) && 0 <= i < |r| ==> r[i].distance <= x.distance
  {
    var sorted := SortByDistance(ts);
    var m := Min(k, |ts|);
    SplitSorted(sorted, m);
    SubMultisetMembers(sorted[..m], ts);
    sorted[..m]
  }

  lemma SubMultisetMembers(a: seq<Target>, b: seq<Target>)
    requires multiset(a) <= multiset(b)
    ensures forall i :: 0 <= i < |a| ==> a[i] in b
  {
    forall i | 0 <= i < |a|
      ensures a[i] in b
    {
      assert a[i] in multiset(a);
    }
  }

  /** Cutting a sorted sequence leaves nothing in the tail closer than the head. */
  lemma SplitSorted(sorted: seq<Target>, m: nat)
    requires SortedByDistance(sorted) && m <= |sorted|
    ensures multiset(sorted[..m]) <= multiset(sorted)
    ensures forall x, i :: x in multiset(sorted) - multiset(sorted[..m]) && 0 <= i < m ==>
      sorted[i].distance <= x.distance
  {
    var r, rest := sorted[..m], sorted[m..];
    assert sorted == r + rest;
    assert multiset(sorted) == multiset(r) + multiset(rest);
    assert multiset(sorted) - multiset(r) == multiset(rest);
    forall x, i | x in multiset(sorted) - multiset(r) && 0 <= i < m
      ensures sorted[i].distance <= x.distance
    {
      assert x in rest;
      var j :| 0 <= j < |rest| && rest[j] == x;
      assert sorted[m + j] == x;
    }
  }
}
