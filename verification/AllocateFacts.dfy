/**
  What the allocators promise: identifiers are in range, unused, pairwise distinct, and as many
  as there can be; and how the four results relate to each other.
 */
module AllocateFacts {
  import opened Wrappers
  import opened Allocate

  /** The identifiers of a range. */
  function Ids(min: int, max: int): (s: set<int>)
    ensures forall v :: v in s <==> min <= v <= max
    decreases max - min
  {
    if min > max then {} else Ids(min + 1, max) + {min}
  }

  function Least(a: int, b: int): int {
    if a < b then a else b
  }

  /** Steps from `x` to `v` going up and around. */
  function Dist(x: int, v: int, min: int, max: int): int {
    if v >= x then v - x else v - x + Size(min, max)
  }

  ghost predicate Distinct(s: seq<int>) {
    forall i, j :: 0 <= i < j < |s| ==> s[i] != s[j]
  }

  function Elements(s: seq<int>): set<int> {
    set x | x in s
  }

  lemma {:induction false} DistinctSize(s: seq<int>)
    requires Distinct(s)
    ensures |Elements(s)| == |s|
  {
    if s != [] {
      var t := s[1..];
      DistinctSize(t);
      assert forall i :: 0 <= i < |t| ==> t[i] == s[i + 1];
      assert Elements(s) == {s[0]} + Elements(t) && s[0] !in Elements(t);
    }
  }

  /** A walk of at most one round visits each identifier once, nearest first. */
  lemma {:induction false} WalkVisits(x: int, n: nat, min: int, max: int, top: int)
    requires IsRange(min, max, top) && min <= x <= max && n <= Size(min, max)
    ensures var w := Walk(x, n, min, max, top);
      && Distinct(w)
      && forall v :: v in w <==> min <= v <= max && Dist(Next(x, min, max, top), v, min, max) < n
    decreases n
  {
    if n > 0 {
      var y := Next(x, min, max, top);
      WalkVisits(y, n - 1, min, max, top);
      var w, t := Walk(x, n, min, max, top), Walk(y, n - 1, min, max, top);
      assert w == [y] + t && y !in t;
      assert forall v :: v in w <==> v == y || v in t;
    }
  }

  lemma {:induction false} FreeKeeps(used: set<int>, ids: seq<int>)
    requires Distinct(ids)
    ensures Distinct(Free(used, ids))
    ensures forall v :: v in Free(used, ids) <==> v in ids && v !in used
  {
    if ids != [] {
      var t := ids[1..];
      assert forall i :: 0 <= i < |t| ==> t[i] == ids[i + 1];
      FreeKeeps(used, t);
      assert forall v :: v in ids <==> v == ids[0] || v in t;
      assert ids[0] !in t;
    }
  }

  /** One round collects every free identifier of the range exactly once. */
  lemma FreeIdsComplete(used: set<int>, x: int, min: int, max: int, top: int)
    requires IsRange(min, max, top) && min <= x <= max
    ensures var f := FreeIds(used, x, min, max, top);
      && Distinct(f)
      && Elements(f) == Ids(min, max) - used
      && |f| == |Ids(min, max) - used|
  {
    WalkVisits(x, Size(min, max), min, max, top);
    FreeKeeps(used, Walk(x, Size(min, max), min, max, top));
    DistinctSize(FreeIds(used, x, min, max, top));
  }

  lemma {:induction false} ZipAt<B>(items: seq<B>, ids: seq<int>)
    ensures var r := Zip(items, ids);
      && |r| == Least(|items|, |ids|)
      && forall i :: 0 <= i < |r| ==> r[i] == (items[i], ids[i])
  {
    if items != [] && ids != [] {
      ZipAt(items[1..], ids[1..]);
    }
  }

  /** `allocate` serves a prefix of the items, as long as there are free identifiers, with
      pairwise distinct identifiers of the range that were not in use. */
  lemma AllocateTheorem<B>(used: set<int>, items: seq<B>, min: int, max: int, top: int)
    requires IsRange(min, max, top)
    ensures var r := Zip(items, FreeIds(used, Start(used, max, min, max), min, max, top));
      && |r| == Least(|items|, |Ids(min, max) - used|)
      && (forall i :: 0 <= i < |r| ==> r[i].0 == items[i] && min <= r[i].1 <= max && r[i].1 !in used)
      && (forall i, j :: 0 <= i < j < |r| ==> r[i].1 != r[j].1)
  {
    var f := FreeIds(used, Start(used, max, min, max), min, max, top);
    FreeIdsComplete(used, Start(used, max, min, max), min, max, top);
    ZipAt(items, f);
    assert forall i :: 0 <= i < |f| ==> f[i] in Elements(f);
  }

  /** `allocate_opt` is `allocate` with `None` for every item that is not served. */
  lemma {:induction false} OptTheorem<B>(items: seq<B>, ids: seq<int>)
    ensures var r, z := ZipOpt(items, ids), Zip(items, ids);
      && |r| == |items| >= |z|
      && (forall i :: 0 <= i < |z| ==> r[i] == (z[i].0, Some(z[i].1)))
      && (forall i :: |z| <= i < |items| ==> r[i] == (items[i], None))
  {
    if items != [] {
      OptTheorem(items[1..], if ids == [] then [] else ids[1..]);
    }
  }

  // ---- in which order --------------------------------------------------------------------

  /** `id` is the first identifier at or after `cur`, cyclically, that is not taken. */
  ghost predicate FirstFree(taken: set<int>, cur: int, id: int, min: int, max: int) {
    && min <= id <= max && id !in taken
    && forall v :: min <= v <= max && Dist(cur, v, min, max) < Dist(cur, id, min, max) ==> v in taken
  }

  /** One further, around the range. */
  function Successor(x: int, min: int, max: int): int {
    if x == max then min else x + 1
  }

  /** Each identifier is the first free one from just after the one before it. */
  ghost predicate InTurn(used: set<int>, from: int, ids: seq<int>, min: int, max: int)
    decreases |ids|
  {
    ids != [] ==>
      && FirstFree(used, from, ids[0], min, max)
      && InTurn(used, Successor(ids[0], min, max), ids[1..], min, max)
  }

  ghost predicate IsLargest(used: set<int>, m: int) {
    m in used && forall y :: y in used ==> y <= m
  }

  /** `x` is the largest identifier in use, if that is in the range, and else the default. */
  ghost predicate IsStart(used: set<int>, default: int, x: int, min: int, max: int) {
    && (forall m :: IsLargest(used, m) && min <= m <= max ==> x == m)
    && ((forall m :: IsLargest(used, m) ==> m < min || m > max) ==> x == default)
  }

  lemma StartIs(used: set<int>, default: int, x: int, min: int, max: int)
    requires min <= default <= max && IsStart(used, default, x, min, max)
    ensures Start(used, default, min, max) == x
  {
    if used != {} {
      var m := LastOf(used);
      assert IsLargest(used, m) && forall n :: IsLargest(used, n) ==> n == m;
    }
  }

  lemma FirstFreeStep(used: set<int>, y: int, id: int, min: int, max: int)
    requires min <= y <= max && y in used && FirstFree(used, Successor(y, min, max), id, min, max)
    ensures FirstFree(used, y, id, min, max)
  {
    forall v | min <= v <= max && Dist(y, v, min, max) < Dist(y, id, min, max)
      ensures v in used
    {
      assert v == y || Dist(Successor(y, min, max), v, min, max) == Dist(y, v, min, max) - 1;
    }
  }

  /** The free identifiers of a walk come in turn. */
  lemma {:induction false} WalkInTurn(used: set<int>, x: int, n: nat, min: int, max: int, top: int)
    requires IsRange(min, max, top) && min <= x <= max
    ensures InTurn(used, Successor(x, min, max), Free(used, Walk(x, n, min, max, top)), min, max)
    decreases n
  {
    if n > 0 {
      var y := Next(x, min, max, top);
      WalkStep(used, x, n, min, max, top);
      WalkInTurn(used, y, n - 1, min, max, top);
      var f := Free(used, Walk(y, n - 1, min, max, top));
      if y in used {
        assert [] + f == f;
        if f != [] {
          FirstFreeStep(used, y, f[0], min, max);
        }
      } else {
        assert ([y] + f)[1..] == f;
      }
    }
  }

  lemma {:induction false} InTurnPrefix(used: set<int>, from: int, ids: seq<int>, n: nat, min: int, max: int)
    requires InTurn(used, from, ids, min, max) && n <= |ids|
    ensures InTurn(used, from, ids[..n], min, max)
    decreases |ids|
  {
    if n > 0 {
      assert ids[..n][1..] == ids[1..][..n - 1];
      InTurnPrefix(used, Successor(ids[0], min, max), ids[1..], n - 1, min, max);
    }
  }

  /** The identifiers that are given out, in order. */
  function Given<B>(r: seq<(B, int)>): (ids: seq<int>)
    ensures |ids| == |r|
  {
    if r == [] then [] else [r[0].1] + Given(r[1..])
  }

  function GivenOpt<B>(r: seq<(B, Option<int>)>): seq<int> {
    if r == [] then [] else (if r[0].1.Some? then [r[0].1.value] else []) + GivenOpt(r[1..])
  }

  lemma {:induction false} ZipGives<B>(items: seq<B>, ids: seq<int>)
    ensures Given(Zip(items, ids)) == ids[..Least(|items|, |ids|)] == GivenOpt(ZipOpt(items, ids))
  {
    if items != [] {
      if ids == [] {
        ZipGives(items[1..], []);
      } else {
        ZipGives(items[1..], ids[1..]);
        var n := Least(|items|, |ids|);
        assert [ids[0]] + ids[1..][..n - 1] == ids[..n];
        assert Zip(items, ids)[1..] == Zip(items[1..], ids[1..]);
        assert ZipOpt(items, ids)[1..] == ZipOpt(items[1..], ids[1..]);
      }
    }
  }

  /** `allocate` and `allocate_opt` give out the free identifiers in turn, from just after the largest
      one in use, or from the beginning of the range if that is not in it. */
  lemma AllocateOrder<B>(used: set<int>, items: seq<B>, x: int, min: int, max: int, top: int)
    requires IsRange(min, max, top) && IsStart(used, max, x, min, max)
    ensures var ids := FreeIds(used, Start(used, max, min, max), min, max, top);
      && InTurn(used, Successor(x, min, max), Given(Zip(items, ids)), min, max)
      && InTurn(used, Successor(x, min, max), GivenOpt(ZipOpt(items, ids)), min, max)
  {
    StartIs(used, max, x, min, max);
    var ids := FreeIds(used, x, min, max, top);
    WalkInTurn(used, x, Size(min, max), min, max, top);
    InTurnPrefix(used, Successor(x, min, max), ids, Least(|items|, |ids|), min, max);
    ZipGives(items, ids);
  }

  // ---- adjust_allocation -----------------------------------------------------------------

  function NewPairs<A>(used: map<A, int>, r: seq<(A, int)>): seq<(A, int)> {
    if r == [] then []
    else (if r[0].0 in used then [] else [r[0]]) + NewPairs(used, r[1..])
  }

  lemma NewPairsCons<A>(used: map<A, int>, e: (A, int), r: seq<(A, int)>)
    ensures NewPairs(used, [e] + r) == (if e.0 in used then [] else [e]) + NewPairs(used, r)
  {
    assert ([e] + r)[1..] == r;
  }

  /** What `adjust_allocation` gives to new keys is what `allocate` gives to them alone. */
  lemma {:induction false} AdjustIsAllocate<A>(used: map<A, int>, items: seq<A>, ids: seq<int>)
    ensures NewPairs(used, Merge(used, items, ids)) == Zip(NewKeys(used, items), ids)
  {
    if items != [] {
      var t := items[1..];
      var keys := NewKeys(used, t);
      if items[0] in used {
        AdjustIsAllocate(used, t, ids);
        NewPairsCons(used, (items[0], used[items[0]]), Merge(used, t, ids));
        assert [] + keys == keys;
      } else if ids == [] {
        AdjustIsAllocate(used, t, []);
      } else {
        AdjustIsAllocate(used, t, ids[1..]);
        NewPairsCons(used, (items[0], ids[0]), Merge(used, t, ids[1..]));
        assert ([items[0]] + keys)[1..] == keys;
      }
    }
  }

  /** Where the pairs of the result come from: nothing else is returned, and every listed key
      with an allocation keeps it. */
  lemma {:induction false} AdjustSound<A>(used: map<A, int>, items: seq<A>, ids: seq<int>)
    ensures var r := Merge(used, items, ids);
      && (forall k :: k in items && k in used ==> (k, used[k]) in r)
      && (forall e :: e in r ==> e.0 in items && if e.0 in used then e.1 == used[e.0] else e.1 in ids)
  {
    if items != [] {
      var t := items[1..];
      AdjustSound(used, t, ids);
      AdjustSound(used, t, if ids == [] then [] else ids[1..]);
      assert forall k :: k in items <==> k == items[0] || k in t;
    }
  }

  ghost predicate NoRepeats<A>(items: seq<A>) {
    forall i, j :: 0 <= i < j < |items| ==> items[i] != items[j]
  }

  ghost predicate Injective<A>(used: map<A, int>) {
    forall a, b :: a in used && b in used && used[a] == used[b] ==> a == b
  }

  /** With distinct keys, distinct existing identifiers and fresh new ones, all are distinct. */
  lemma {:induction false} AdjustDistinct<A>(used: map<A, int>, items: seq<A>, ids: seq<int>)
    requires NoRepeats(items) && Injective(used) && Distinct(ids)
    requires forall v :: v in ids ==> v !in used.Values
    ensures var r := Merge(used, items, ids); forall i, j :: 0 <= i < j < |r| ==> r[i].1 != r[j].1
  {
    if items != [] {
      var t := items[1..];
      assert forall i :: 0 <= i < |t| ==> t[i] == items[i + 1];
      if items[0] in used || ids == [] {
        AdjustDistinct(used, t, ids);
        AdjustSound(used, t, ids);
        FirstIsNew(used, items, ids, Merge(used, t, ids));
      } else {
        assert forall i :: 0 <= i < |ids[1..]| ==> ids[1..][i] == ids[i + 1];
        AdjustDistinct(used, t, ids[1..]);
        AdjustSound(used, t, ids[1..]);
        FirstIsNew(used, items, ids, Merge(used, t, ids[1..]));
      }
    }
  }

  /** The identifier of the first key does not occur in the result for the other keys. */
  lemma FirstIsNew<A>(used: map<A, int>, items: seq<A>, ids: seq<int>, r: seq<(A, int)>)
    requires items != [] && NoRepeats(items) && Injective(used) && Distinct(ids)
    requires forall v :: v in ids ==> v !in used.Values
    requires forall e :: e in r ==>
      e.0 in items[1..] &&
        if e.0 in used then e.1 == used[e.0] else e.1 in (if items[0] in used || ids == [] then ids else ids[1..])
    ensures items[0] in used ==> forall e :: e in r ==> e.1 != used[items[0]]
    ensures items[0] !in used && ids != [] ==> forall e :: e in r ==> e.1 != ids[0]
  {
    assert items[0] !in items[1..] by {
      assert forall i :: 0 <= i < |items[1..]| ==> items[1..][i] == items[i + 1];
    }
    if ids != [] {
      assert ids[0] in ids;
      assert forall i :: 0 <= i < |ids[1..]| ==> ids[1..][i] == ids[i + 1];
    }
    forall e | e in r
      ensures items[0] in used ==> e.1 != used[items[0]]
      ensures items[0] !in used && ids != [] ==> e.1 != ids[0]
    {
      if e.0 in used {
        assert used[e.0] in used.Values;
      }
      if items[0] in used {
        assert used[items[0]] in used.Values;
      }
    }
  }

  /** The guarantees of `adjust_allocation` taken together. */
  lemma AdjustTheorem<A>(used: map<A, int>, items: seq<A>, min: int, max: int, top: int)
    requires IsRange(min, max, top)
    ensures var ids := FreeIds(used.Values, Start(used.Values, max, min, max), min, max, top);
      var r := Merge(used, items, ids);
      && (forall k :: k in items && k in used ==> (k, used[k]) in r)
      && (forall e :: e in r && e.0 !in used ==> min <= e.1 <= max && e.1 !in used.Values)
      && NewPairs(used, r) == Zip(NewKeys(used, items), ids)
      && (NoRepeats(items) && Injective(used) ==> forall i, j :: 0 <= i < j < |r| ==> r[i].1 != r[j].1)
  {
    var start := Start(used.Values, max, min, max);
    var ids := FreeIds(used.Values, start, min, max, top);
    FreeIdsComplete(used.Values, start, min, max, top);
    assert forall v :: v in ids <==> v in Elements(ids);
    AdjustSound(used, items, ids);
    AdjustIsAllocate(used, items, ids);
    if NoRepeats(items) && Injective(used) {
      AdjustDistinct(used, items, ids);
    }
  }

  /** And the new keys get theirs in turn. */
  lemma AdjustOrder<A>(used: map<A, int>, items: seq<A>, x: int, min: int, max: int, top: int)
    requires IsRange(min, max, top) && IsStart(used.Values, max, x, min, max)
    ensures var ids := FreeIds(used.Values, Start(used.Values, max, min, max), min, max, top);
      InTurn(used.Values, Successor(x, min, max), Given(NewPairs(used, Merge(used, items, ids))), min, max)
  {
    AdjustIsAllocate(used, items, FreeIds(used.Values, Start(used.Values, max, min, max), min, max, top));
    AllocateOrder(used.Values, NewKeys(used, items), x, min, max, top);
  }

  /** How many keys of a list have no allocation. */
  function NewCount<A>(used: map<A, int>, items: seq<A>): nat {
    if items == [] then 0 else (if items[0] in used then 0 else 1) + NewCount(used, items[1..])
  }

  /** A key is served if it has an allocation, or if fewer new keys come before it than there are
      identifiers.  The result lists the served keys in order. */
  lemma {:induction false} AdjustPlace<A>(used: map<A, int>, items: seq<A>, ids: seq<int>, i: nat)
    requires i < |items|
    ensures var r, before := Merge(used, items, ids), NewCount(used, items[..i]);
      && (items[i] in used ==>
            var n := i - before + Least(before, |ids|);
            0 <= n < |r| && r[n] == (items[i], used[items[i]]))
      && (items[i] !in used && before < |ids| ==> i < |r| && r[i] == (items[i], ids[before]))
    ensures var new_ := NewCount(used, items); |Merge(used, items, ids)| == |items| - new_ + Least(new_, |ids|)
  {
    var t := items[1..];
    var rest := if items[0] in used || ids == [] then ids else ids[1..];
    if i > 0 {
      assert items[..i][1..] == t[..i - 1] && items[..i][0] == items[0];
      AdjustPlace(used, t, rest, i - 1);
    } else if t != [] {
      AdjustPlace(used, t, rest, 0);
    }
  }

  function AsMap<A>(r: seq<(A, int)>): map<A, int> {
    if r == [] then map[] else AsMap(r[1..])[r[0].0 := r[0].1]
  }

  /** If every key was served, a second run with the result as the existing allocation returns
      the same vector, whatever the range of the second run. */
  lemma {:induction false} AdjustAgain<A>(used: map<A, int>, items: seq<A>, ids: seq<int>, again: map<A, int>,
                                          ids2: seq<int>)
    requires NoRepeats(items) && |Merge(used, items, ids)| == |items|
    requires forall e :: e in Merge(used, items, ids) ==> e.0 in again && again[e.0] == e.1
    ensures Merge(again, items, ids2) == Merge(used, items, ids)
  {
    if items != [] {
      var t := items[1..];
      assert forall i :: 0 <= i < |t| ==> t[i] == items[i + 1];
      var r := Merge(used, items, ids);
      MergeShort(used, t, ids);
      MergeShort(used, t, if ids == [] then [] else ids[1..]);
      assert r[0] in r && r[0].0 == items[0];
      var ids' := if items[0] in used then ids else ids[1..];
      assert r == [r[0]] + Merge(used, t, ids');
      AdjustAgain(used, t, ids', again, ids2);
    }
  }

  lemma {:induction false} MergeShort<A>(used: map<A, int>, items: seq<A>, ids: seq<int>)
    ensures |Merge(used, items, ids)| <= |items|
  {
    if items != [] {
      MergeShort(used, items[1..], ids);
      MergeShort(used, items[1..], if ids == [] then [] else ids[1..]);
    }
  }

  lemma {:induction false} AsMapHolds<A>(r: seq<(A, int)>)
    requires forall i, j :: 0 <= i < j < |r| ==> r[i].0 != r[j].0
    ensures forall e :: e in r ==> e.0 in AsMap(r) && AsMap(r)[e.0] == e.1
    ensures forall k :: k in AsMap(r) ==> exists e :: e in r && e.0 == k
  {
    if r != [] {
      var t := r[1..];
      assert forall i :: 0 <= i < |t| ==> t[i] == r[i + 1];
      AsMapHolds(t);
      assert forall e :: e in r <==> e == r[0] || e in t;
    }
  }

  lemma {:induction false} MergeKeys<A>(used: map<A, int>, items: seq<A>, ids: seq<int>)
    requires |Merge(used, items, ids)| == |items|
    ensures forall i :: 0 <= i < |items| ==> Merge(used, items, ids)[i].0 == items[i]
  {
    if items != [] {
      var t := items[1..];
      MergeShort(used, t, ids);
      var ids' := if items[0] in used || ids == [] then ids else ids[1..];
      MergeShort(used, t, ids');
      MergeKeys(used, t, ids');
    }
  }

  lemma AdjustIdempotent<A>(used: map<A, int>, items: seq<A>, ids: seq<int>, ids2: seq<int>)
    requires NoRepeats(items) && |Merge(used, items, ids)| == |items|
    ensures Merge(AsMap(Merge(used, items, ids)), items, ids2) == Merge(used, items, ids)
  {
    var r := Merge(used, items, ids);
    MergeKeys(used, items, ids);
    AsMapHolds(r);
    AdjustAgain(used, items, ids, AsMap(r), ids2);
  }

  // ---- allocate_with_hint ----------------------------------------------------------------

  /** Each served item, in order, has the first free identifier from its hint, or else from just
      after the identifier before it. */
  ghost predicate Honours<B>(taken: set<int>, items: seq<(B, Option<int>)>, next: int, r: seq<(B, int)>,
                             min: int, max: int)
    decreases |r|
  {
    r != [] ==>
      && items != [] && r[0].0 == items[0].0
      && FirstFree(taken, Cursor(items[0].1, next), r[0].1, min, max)
      && Honours(taken + {r[0].1}, items[1..], Successor(r[0].1, min, max), r[1..], min, max)
  }

  lemma OneLess(min: int, max: int, taken: set<int>, id: int)
    requires min <= id <= max && id !in taken
    ensures |Ids(min, max) - (taken + {id})| == |Ids(min, max) - taken| - 1
  {
    assert Ids(min, max) - taken == (Ids(min, max) - (taken + {id})) + {id};
  }

  /** Everything nearer to `from` than `cur` is taken. */
  ghost predicate Passed(taken: set<int>, from: int, cur: int, min: int, max: int) {
    forall v :: min <= v <= max && Dist(from, v, min, max) < Dist(from, cur, min, max) ==> v in taken
  }

  lemma PassOne(taken: set<int>, from: int, cur: int, min: int, max: int, top: int)
    requires IsRange(min, max, top) && min <= from <= max && min <= cur <= max && Passed(taken, from, cur, min, max)
    requires Dist(from, cur, min, max) < max - min && cur in taken
    ensures var y := Next(cur, min, max, top);
      Dist(from, y, min, max) == Dist(from, cur, min, max) + 1 && Passed(taken, from, y, min, max)
  {
    var y := Next(cur, min, max, top);
    forall v | min <= v <= max && Dist(from, v, min, max) < Dist(from, y, min, max)
      ensures v in taken
    {
      assert v == cur || Dist(from, v, min, max) < Dist(from, cur, min, max);
    }
  }

  /** At the end of a round nothing but `cur` can be free. */
  lemma RoundEnds(taken: set<int>, from: int, cur: int, min: int, max: int)
    requires min <= from <= max && min <= cur <= max && Passed(taken, from, cur, min, max)
    requires Dist(from, cur, min, max) == max - min
    ensures Ids(min, max) - (taken + {cur}) == {}
  {
    forall v | v in Ids(min, max)
      ensures v in taken + {cur}
    {
      assert v == cur || Dist(from, v, min, max) < Dist(from, cur, min, max);
    }
  }

  lemma HonoursCons<B>(taken: set<int>, items: seq<(B, Option<int>)>, next: int, id: int, r: seq<(B, int)>,
                       min: int, max: int)
    requires items != [] && FirstFree(taken, Cursor(items[0].1, next), id, min, max)
    requires Honours(taken + {id}, items[1..], Successor(id, min, max), r, min, max)
    ensures Honours(taken, items, next, [(items[0].0, id)] + r, min, max)
  {
    assert ([(items[0].0, id)] + r)[1..] == r;
  }

  lemma FitTail<B>(items: seq<(B, Option<int>)>, min: int, max: int)
    requires items != [] && HintsFit(items, min, max)
    ensures HintsFit(items[1..], min, max)
  {
    assert forall i :: 0 <= i < |items[1..]| ==> items[1..][i] == items[i + 1];
  }

  /** The scan for the first item, begun at `from`, has passed only taken identifiers. */
  lemma {:induction false} ScanServes<B>(taken: set<int>, items: seq<(B, Option<int>)>, from: int, next: int,
                                         cur: int, left: nat, min: int, max: int, top: int)
    requires items != [] && IsRange(min, max, top) && HintsFit(items, min, max)
    requires min <= from <= max && from == Cursor(items[0].1, next)
    requires min <= cur <= max && Dist(from, cur, min, max) == max - min - left
    requires Passed(taken, from, cur, min, max)
    ensures var r := HintScan(taken, items, cur, left, min, max, top);
      && |r| == Least(|items|, |Ids(min, max) - taken|)
      && Honours(taken, items, next, r, min, max)
    decreases |items|, 0, left
  {
    if left == 0 {
      RoundEnds(taken, from, cur, min, max);
    }
    if cur in taken {
      if left == 0 {
        assert taken + {cur} == taken;
      } else {
        PassOne(taken, from, cur, min, max, top);
        ScanServes(taken, items, from, next, Next(cur, min, max, top), left - 1, min, max, top);
      }
    } else {
      OneLess(min, max, taken, cur);
      FitTail(items, min, max);
      var y := Next(cur, min, max, top);
      var rest := if left == 0 then [] else HintRun(taken + {cur}, items[1..], y, min, max, top);
      if left > 0 {
        RunServes(taken + {cur}, items[1..], y, min, max, top);
      }
      assert FirstFree(taken, from, cur, min, max);
      HonoursCons(taken, items, next, cur, rest, min, max);
    }
  }

  /** With hints in the range, `allocate_with_hint` serves exactly as many items as there are
      free identifiers for, and each with the first free identifier from its hint or cursor. */
  lemma {:induction false} RunServes<B>(taken: set<int>, items: seq<(B, Option<int>)>, next: int, min: int, max: int,
                                        top: int)
    requires IsRange(min, max, top) && HintsFit(items, min, max) && min <= next <= max
    ensures var r := HintRun(taken, items, next, min, max, top);
      && |r| == Least(|items|, |Ids(min, max) - taken|)
      && Honours(taken, items, next, r, min, max)
    decreases |items|, 1, 0
  {
    if items != [] {
      var cur := Cursor(items[0].1, next);
      ScanServes(taken, items, cur, next, cur, max - min, min, max, top);
    }
  }

  /** So the identifiers are in range, new and pairwise distinct. */
  lemma {:induction false} HonoursDistinct<B>(taken: set<int>, items: seq<(B, Option<int>)>, next: int,
                                              r: seq<(B, int)>, min: int, max: int)
    requires Honours(taken, items, next, r, min, max)
    ensures forall i :: 0 <= i < |r| ==> min <= r[i].1 <= max && r[i].1 !in taken
    ensures forall i, j :: 0 <= i < j < |r| ==> r[i].1 != r[j].1
    ensures |r| <= |items| && forall i :: 0 <= i < |r| ==> r[i].0 == items[i].0
    decreases |r|
  {
    if r != [] {
      HonoursDistinct(taken + {r[0].1}, items[1..], Successor(r[0].1, min, max), r[1..], min, max);
    }
  }

  /** The first item without a hint gets the first free identifier from the largest one in use. */
  lemma HintTheorem<B>(used: set<int>, items: seq<(B, Option<int>)>, x: int, min: int, max: int, top: int)
    requires IsRange(min, max, top) && HintsFit(items, min, max) && IsStart(used, min, x, min, max)
    ensures var r := HintRun(used, items, Start(used, min, min, max), min, max, top);
      && |r| == Least(|items|, |Ids(min, max) - used|)
      && Honours(used, items, x, r, min, max)
      && (forall i :: 0 <= i < |r| ==> r[i].0 == items[i].0 && min <= r[i].1 <= max && r[i].1 !in used)
      && (forall i, j :: 0 <= i < j < |r| ==> r[i].1 != r[j].1)
  {
    StartIs(used, min, x, min, max);
    RunServes(used, items, x, min, max, top);
    HonoursDistinct(used, items, x, HintRun(used, items, x, min, max, top), min, max);
  }

  /** Hints are not clamped: an item whose hint is free gets it, even outside the range. */
  lemma HintsAreNotClamped<B>(taken: set<int>, items: seq<(B, Option<int>)>, next: int, min: int, max: int, top: int)
    requires min <= max && items != [] && items[0].1.Some? && items[0].1.value !in taken
    ensures var r := HintRun(taken, items, next, min, max, top);
      r != [] && r[0] == (items[0].0, items[0].1.value)
  {
  }

  ghost predicate InRange<B>(r: seq<(B, int)>, min: int, max: int) {
    forall i :: 0 <= i < |r| ==> min <= r[i].1 <= max
  }

  /** A scan that starts at `h` comes into the range before it comes to an identifier that is not
      taken: up from below, or up to the end of the type and around from above. */
  ghost predicate Lands(taken: set<int>, h: int, min: int, max: int, top: int) {
    && (h < min ==> forall v :: h <= v < min ==> v in taken)
    && (h > max ==> h <= top && forall v :: h <= v <= top || 0 <= v < min ==> v in taken)
  }

  ghost predicate HintLands<B>(taken: set<int>, item: (B, Option<int>), min: int, max: int, top: int) {
    item.1.Some? ==> Lands(taken, item.1.value, min, max, top)
  }

  ghost predicate HintsLand<B>(taken: set<int>, items: seq<(B, Option<int>)>, min: int, max: int, top: int) {
    forall i :: 0 <= i < |items| ==> HintLands(taken, items[i], min, max, top)
  }

  /** One step of a scan past a taken identifier. */
  lemma LandsNext(taken: set<int>, cur: int, min: int, max: int, top: int)
    requires IsRange(min, max, top) && cur in taken
    ensures Lands(taken, Next(cur, min, max, top), min, max, top) <==> Lands(taken, cur, min, max, top)
  {
    var y := Next(cur, min, max, top);
    if cur < min {
      assert Lands(taken, cur, min, max, top) <==> forall v :: y <= v < min ==> v in taken;
    }
  }

  /** Identifiers of the range make no difference. */
  lemma LandsStays(taken: set<int>, id: int, h: int, min: int, max: int, top: int)
    requires IsRange(min, max, top) && min <= id <= max
    ensures Lands(taken + {id}, h, min, max, top) <==> Lands(taken, h, min, max, top)
  {
    assert forall v :: v < min || v > max ==> (v in taken + {id} <==> v in taken);
  }

  /** One served item and the rest. */
  lemma ServedOne<B>(taken: set<int>, items: seq<(B, Option<int>)>, e: (B, int), rest: seq<(B, int)>,
                     min: int, max: int, top: int)
    requires items != [] && |rest| <= |items| - 1
    ensures var r := [e] + rest;
      && (HintsLand(taken, items[..|r|], min, max, top) <==>
            && HintLands(taken, items[0], min, max, top)
            && HintsLand(taken, items[1..][..|rest|], min, max, top))
      && (InRange(r, min, max) <==> min <= e.1 <= max && InRange(rest, min, max))
  {
    var r := [e] + rest;
    var a, b := items[..|r|], items[1..][..|rest|];
    assert a[0] == items[0] && forall i :: 0 <= i < |b| ==> a[i + 1] == b[i];
    assert r[0] == e && forall i :: 0 <= i < |rest| ==> r[i + 1] == rest[i];
    if HintsLand(taken, a, min, max, top) {
      assert forall i :: 0 <= i < |b| ==> b[i] == a[i + 1];
    }
    if HintLands(taken, items[0], min, max, top) && HintsLand(taken, b, min, max, top) {
      assert forall i :: 0 < i < |a| ==> a[i] == b[i - 1];
    }
    if InRange(r, min, max) {
      assert forall i :: 0 <= i < |rest| ==> rest[i] == r[i + 1];
    }
    if min <= e.1 <= max && InRange(rest, min, max) {
      assert forall i :: 0 < i < |r| ==> r[i] == rest[i - 1];
    }
  }

  lemma HintsLandStays<B>(taken: set<int>, id: int, items: seq<(B, Option<int>)>, min: int, max: int, top: int)
    requires IsRange(min, max, top) && min <= id <= max
    ensures HintsLand(taken + {id}, items, min, max, top) <==> HintsLand(taken, items, min, max, top)
  {
    forall i | 0 <= i < |items|
      ensures HintLands(taken + {id}, items[i], min, max, top) <==> HintLands(taken, items[i], min, max, top)
    {
      if items[i].1.Some? {
        LandsStays(taken, id, items[i].1.value, min, max, top);
      }
    }
  }

  lemma {:induction false} HintScanShort<B>(taken: set<int>, items: seq<(B, Option<int>)>, cur: int, left: nat,
                                            min: int, max: int, top: int)
    requires items != [] && min <= max
    ensures |HintScan(taken, items, cur, left, min, max, top)| <= |items|
    decreases |items|, 0, left
  {
    if cur !in taken {
      HintRunShort(taken + {cur}, items[1..], Next(cur, min, max, top), min, max, top);
    } else if left > 0 {
      HintScanShort(taken, items, Next(cur, min, max, top), left - 1, min, max, top);
    }
  }

  lemma {:induction false} HintRunShort<B>(taken: set<int>, items: seq<(B, Option<int>)>, next: int, min: int,
                                           max: int, top: int)
    requires min <= max
    ensures |HintRun(taken, items, next, min, max, top)| <= |items|
    decreases |items|, 1, 0
  {
    if items != [] {
      HintScanShort(taken, items, Cursor(items[0].1, next), max - min, min, max, top);
    }
  }

  /** The scan for the first item, which is at `cur` after taken identifiers only. */
  lemma {:induction false} ScanLands<B>(taken: set<int>, items: seq<(B, Option<int>)>, cur: int, left: nat,
                                        min: int, max: int, top: int)
    requires items != [] && IsRange(min, max, top)
    requires Lands(taken, cur, min, max, top) <==> HintLands(taken, items[0], min, max, top)
    ensures var r := HintScan(taken, items, cur, left, min, max, top);
      |r| <= |items| && (InRange(r, min, max) <==> HintsLand(taken, items[..|r|], min, max, top))
    decreases |items|, 0, left
  {
    if cur in taken {
      if left > 0 {
        LandsNext(taken, cur, min, max, top);
        ScanLands(taken, items, Next(cur, min, max, top), left - 1, min, max, top);
      }
    } else {
      var y := Next(cur, min, max, top);
      var rest := if left == 0 then [] else HintRun(taken + {cur}, items[1..], y, min, max, top);
      HintRunShort(taken + {cur}, items[1..], y, min, max, top);
      if min <= cur <= max {
        if left > 0 {
          RunLands(taken + {cur}, items[1..], y, min, max, top);
        }
        HintsLandStays(taken, cur, items[1..][..|rest|], min, max, top);
      } else {
        assert !Lands(taken, cur, min, max, top);
      }
      ServedOne(taken, items, (items[0].0, cur), rest, min, max, top);
    }
  }

  lemma {:induction false} RunLands<B>(taken: set<int>, items: seq<(B, Option<int>)>, next: int,
                                       min: int, max: int, top: int)
    requires IsRange(min, max, top) && min <= next <= max
    ensures var r := HintRun(taken, items, next, min, max, top);
      |r| <= |items| && (InRange(r, min, max) <==> HintsLand(taken, items[..|r|], min, max, top))
    decreases |items|, 1, 0
  {
    if items != [] {
      ScanLands(taken, items, Cursor(items[0].1, next), max - min, min, max, top);
    }
  }

  /** When `allocate_with_hint` keeps its promise of identifiers in the range: exactly if, for the
      hint of every served item, all identifiers from the hint to the range are in use.  So it does
      if that is so for all hints. */
  lemma HintRangeExact<B>(used: set<int>, items: seq<(B, Option<int>)>, min: int, max: int, top: int)
    requires IsRange(min, max, top)
    ensures var r := HintRun(used, items, Start(used, min, min, max), min, max, top);
      && |r| <= |items|
      && (InRange(r, min, max) <==> HintsLand(used, items[..|r|], min, max, top))
      && (HintsLand(used, items, min, max, top) ==> InRange(r, min, max))
  {
    RunLands(used, items, Start(used, min, min, max), min, max, top);
  }

  // ---- hints outside the range that are not in use ---------------------------------------

  /** No hint outside the range is in use. */
  ghost predicate MisfitsFree<B>(taken: set<int>, items: seq<(B, Option<int>)>, min: int, max: int) {
    forall i :: 0 <= i < |items| && !Fits(items[i], min, max) ==> items[i].1.value !in taken
  }

  predicate Fits<B>(item: (B, Option<int>), min: int, max: int) {
    item.1.Some? ==> min <= item.1.value <= max
  }

  lemma MisfitsFreeTail<B>(taken: set<int>, items: seq<(B, Option<int>)>, id: int, min: int, max: int)
    requires items != [] && MisfitsFree(taken, items, min, max) && min <= id <= max
    ensures MisfitsFree(taken + {id}, items[1..], min, max)
  {
    assert forall i :: 0 <= i < |items[1..]| ==> items[1..][i] == items[i + 1];
  }

  lemma FitsLands<B>(taken: set<int>, items: seq<(B, Option<int>)>, n: nat, min: int, max: int, top: int)
    requires IsRange(min, max, top) && MisfitsFree(taken, items, min, max) && n <= |items|
    ensures HintsLand(taken, items[..n], min, max, top) <==> HintsFit(items[..n], min, max)
  {
    forall i | 0 <= i < n
      ensures HintLands(taken, items[..n][i], min, max, top) <==> Fits(items[..n][i], min, max)
    {
      assert items[..n][i] == items[i];
    }
  }

  lemma MisfitLater<B>(items: seq<(B, Option<int>)>, min: int, max: int)
    requires items != [] && Fits(items[0], min, max) && !HintsFit(items, min, max)
    ensures !HintsFit(items[1..], min, max)
  {
    var i :| 0 <= i < |items| && !Fits(items[i], min, max);
    assert items[1..][i - 1] == items[i];
  }

  lemma MisfitStays<B>(items: seq<(B, Option<int>)>, n: nat, min: int, max: int)
    requires 0 < n <= |items| && !HintsFit(items[1..][..n - 1], min, max)
    ensures !HintsFit(items[..n], min, max)
  {
    var a, b := items[..n], items[1..][..n - 1];
    assert forall i :: 0 <= i < |b| ==> b[i] == a[i + 1];
    if HintsFit(a, min, max) {
      assert HintsFit(b, min, max);
    }
  }

  /** At the end of a round at most `cur` is free. */
  lemma RoundSize(taken: set<int>, from: int, cur: int, min: int, max: int)
    requires min <= from <= max && min <= cur <= max && Passed(taken, from, cur, min, max)
    requires Dist(from, cur, min, max) == max - min
    ensures |Ids(min, max) - taken| == if cur in taken then 0 else 1
  {
    RoundEnds(taken, from, cur, min, max);
    if cur in taken {
      assert taken + {cur} == taken;
    } else {
      OneLess(min, max, taken, cur);
    }
  }

  /** With a free identifier for every item, a hint outside the range is reached. */
  lemma {:induction false} ScanReaches<B>(taken: set<int>, items: seq<(B, Option<int>)>, from: int, cur: int, left: nat,
                                          min: int, max: int, top: int)
    requires items != [] && IsRange(min, max, top) && MisfitsFree(taken, items, min, max)
    requires Fits(items[0], min, max) && !HintsFit(items, min, max) && |items| <= |Ids(min, max) - taken|
    requires min <= from <= max && min <= cur <= max && Dist(from, cur, min, max) == max - min - left
    requires Passed(taken, from, cur, min, max)
    ensures var r := HintScan(taken, items, cur, left, min, max, top);
      |r| <= |items| && !HintsFit(items[..|r|], min, max)
    decreases |items|, 0, left
  {
    MisfitLater(items, min, max);
    if left == 0 {
      RoundSize(taken, from, cur, min, max);
      assert false;
    } else if cur in taken {
      PassOne(taken, from, cur, min, max, top);
      ScanReaches(taken, items, from, Next(cur, min, max, top), left - 1, min, max, top);
    } else {
      TailReaches(taken, items, cur, min, max, top);
    }
  }

  lemma {:induction false} TailReaches<B>(taken: set<int>, items: seq<(B, Option<int>)>, cur: int,
                                          min: int, max: int, top: int)
    requires items != [] && IsRange(min, max, top) && MisfitsFree(taken, items, min, max)
    requires !HintsFit(items[1..], min, max) && |items| <= |Ids(min, max) - taken|
    requires min <= cur <= max && cur !in taken
    ensures var rest := HintRun(taken + {cur}, items[1..], Next(cur, min, max, top), min, max, top);
      |rest| <= |items| - 1 && !HintsFit(items[..|rest| + 1], min, max)
    decreases |items|, 0, 0
  {
    var y := Next(cur, min, max, top);
    var rest := HintRun(taken + {cur}, items[1..], y, min, max, top);
    OneLess(min, max, taken, cur);
    MisfitsFreeTail(taken, items, cur, min, max);
    RunReaches(taken + {cur}, items[1..], y, min, max, top);
    MisfitStays(items, |rest| + 1, min, max);
  }

  lemma {:induction false} RunReaches<B>(taken: set<int>, items: seq<(B, Option<int>)>, next: int, min: int,
                                         max: int, top: int)
    requires IsRange(min, max, top) && MisfitsFree(taken, items, min, max) && min <= next <= max
    requires !HintsFit(items, min, max) && |items| <= |Ids(min, max) - taken|
    ensures var r := HintRun(taken, items, next, min, max, top);
      |r| <= |items| && !HintsFit(items[..|r|], min, max)
    decreases |items|, 1, 0
  {
    var cur := Cursor(items[0].1, next);
    if Fits(items[0], min, max) {
      ScanReaches(taken, items, cur, cur, max - min, min, max, top);
    } else {
      HintsAreNotClamped(taken, items, next, min, max, top);
      var r := HintRun(taken, items, next, min, max, top);
      HintRunShort(taken, items, next, min, max, top);
      assert items[..|r|][0] == items[0];
    }
  }

  /** If no hint outside the range is in use, the promise is kept exactly if the hints of all
      served items are in the range; and where every item can be served, exactly if all hints are. */
  lemma FreeHintsExact<B>(used: set<int>, items: seq<(B, Option<int>)>, min: int, max: int, top: int)
    requires IsRange(min, max, top) && MisfitsFree(used, items, min, max)
    ensures var r := HintRun(used, items, Start(used, min, min, max), min, max, top);
      && |r| <= |items|
      && (InRange(r, min, max) <==> HintsFit(items[..|r|], min, max))
      && (|items| <= |Ids(min, max) - used| ==> (InRange(r, min, max) <==> HintsFit(items, min, max)))
  {
    var start := Start(used, min, min, max);
    HintRangeExact(used, items, min, max, top);
    FitsLands(used, items, |HintRun(used, items, start, min, max, top)|, min, max, top);
    if !HintsFit(items, min, max) && |items| <= |Ids(min, max) - used| {
      RunReaches(used, items, start, min, max, top);
    }
  }

  // ---- overflow --------------------------------------------------------------------------

  lemma {:induction false} FreeAll(ids: seq<int>)
    ensures Free({}, ids) == ids
  {
    if ids != [] {
      FreeAll(ids[1..]);
    }
  }

  /** Asked for every identifier of its type, with none in use, `allocate_opt` overflows. */
  lemma WholeTypeOverflows<B>(items: seq<B>, top: int)
    requires IsRange(0, top, top) && |items| == top + 1
    ensures var start := Start({}, top, 0, top);
      top - 0 == top && |items| > |Ahead({}, start, top - 0, 0, top, top)|
    ensures |ZipOpt(items, FreeIds({}, Start({}, top, 0, top), 0, top, top))| == |items|
    ensures ZipOpt(items, FreeIds({}, Start({}, top, 0, top), 0, top, top))[top].1.Some?
  {
    var start := Start({}, top, 0, top);
    FreeAll(Walk(start, top, 0, top, top));
    FreeAll(Walk(start, top + 1, 0, top, top));
    OptTheorem(items, FreeIds({}, start, 0, top, top));
    ZipAt(items, FreeIds({}, start, 0, top, top));
  }
}
