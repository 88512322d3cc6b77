/**
  The identifier allocators of lib/allocate.rs.  Four scans walk a range of identifiers
  cyclically.  Identifiers are values of an unsigned type with largest value `top`; additions
  wrap around there, and the methods report when one does.
 */
module Allocate {
  import opened Wrappers

  // ---- the cyclic range ------------------------------------------------------------------

  predicate IsRange(min: int, max: int, top: int) {
    0 <= min <= max <= top
  }

  /** Machine addition of one. */
  function Inc(x: int, top: int): int {
    if x == top then 0 else x + 1
  }

  /** The identifier after `x`. */
  function Next(x: int, min: int, max: int, top: int): int {
    if x == max then min else Inc(x, top)
  }

  /** The `n` identifiers after `x`. */
  function Walk(x: int, n: nat, min: int, max: int, top: int): (w: seq<int>)
    ensures |w| == n
    decreases n
  {
    if n == 0 then [] else [Next(x, min, max, top)] + Walk(Next(x, min, max, top), n - 1, min, max, top)
  }

  function Free(used: set<int>, ids: seq<int>): seq<int> {
    if ids == [] then []
    else (if ids[0] in used then [] else [ids[0]]) + Free(used, ids[1..])
  }

  function Size(min: int, max: int): int {
    max - min + 1
  }

  /** All free identifiers of the range in the order of one walk around it. */
  function FreeIds(used: set<int>, start: int, min: int, max: int, top: int): seq<int>
    requires min <= max
  {
    Free(used, Walk(start, Size(min, max), min, max, top))
  }

  lemma Element<T>(s: set<T>) returns (x: T)
    requires s != {}
    ensures x in s
  {
    x :| x in s;
  }

  lemma {:induction false} Maximum(s: set<int>) returns (m: int)
    requires s != {}
    ensures m in s && forall y :: y in s ==> y <= m
  {
    m := Element(s);
    var t := s - {m};
    assert forall y :: y in s ==> y == m || y in t;
    if t != {} {
      var n := Maximum(t);
      m := if n < m then m else n;
    }
  }

  lemma MaxExists(s: set<int>)
    requires s != {}
    ensures exists m :: m in s && forall y :: y in s ==> y <= m
  {
    var m := Maximum(s);
  }

  /** The last element of an ordered set. */
  function LastOf(s: set<int>): (m: int)
    requires s != {}
    ensures m in s && forall y :: y in s ==> y <= m
  {
    MaxExists(s);
    var m :| m in s && forall y :: y in s ==> y <= m;
    m
  }

  /** Where a scan starts: at the largest identifier in use, unless it is out of range. */
  function Start(used: set<int>, default: int, min: int, max: int): (x: int)
    requires min <= default <= max
    ensures min <= x <= max
  {
    if used == {} then default
    else if min <= LastOf(used) <= max then LastOf(used)
    else default
  }

  // ---- what the scans return -------------------------------------------------------------

  function Zip<B>(items: seq<B>, ids: seq<int>): seq<(B, int)> {
    if items == [] || ids == [] then [] else [(items[0], ids[0])] + Zip(items[1..], ids[1..])
  }

  function ZipOpt<B>(items: seq<B>, ids: seq<int>): seq<(B, Option<int>)> {
    if items == [] then []
    else if ids == [] then [(items[0], None)] + ZipOpt(items[1..], [])
    else [(items[0], Some(ids[0]))] + ZipOpt(items[1..], ids[1..])
  }

  /** Existing allocations are repeated, other keys get the next identifier while there is one. */
  function Merge<A(==)>(used: map<A, int>, items: seq<A>, ids: seq<int>): seq<(A, int)> {
    if items == [] then []
    else if items[0] in used then [(items[0], used[items[0]])] + Merge(used, items[1..], ids)
    else if ids == [] then Merge(used, items[1..], [])
    else [(items[0], ids[0])] + Merge(used, items[1..], ids[1..])
  }

  /** One step of a walk. */
  lemma WalkStep(used: set<int>, x: int, n: nat, min: int, max: int, top: int)
    requires n > 0
    ensures var y := Next(x, min, max, top);
      Free(used, Walk(x, n, min, max, top)) ==
      (if y in used then [] else [y]) + Free(used, Walk(y, n - 1, min, max, top))
  {
  }

  lemma TakeOne<B>(res: seq<(B, int)>, items: seq<B>, i: nat, id: int, ids: seq<int>)
    requires i < |items|
    ensures res + Zip(items[i..], [id] + ids) == (res + [(items[i], id)]) + Zip(items[i + 1..], ids)
  {
    assert items[i..][1..] == items[i + 1..] && ([id] + ids)[1..] == ids;
  }

  lemma TakeOneOpt<B>(res: seq<(B, Option<int>)>, items: seq<B>, i: nat, id: int, ids: seq<int>)
    requires i < |items|
    ensures res + ZipOpt(items[i..], [id] + ids) == (res + [(items[i], Some(id))]) + ZipOpt(items[i + 1..], ids)
    ensures res + ZipOpt(items[i..], []) == (res + [(items[i], None)]) + ZipOpt(items[i + 1..], [])
  {
    assert items[i..][1..] == items[i + 1..] && ([id] + ids)[1..] == ids;
  }

  /** `allocate`: the items, in order, are paired with the free identifiers in walk order, until
      one side runs out.  No addition leaves the identifier type, even when the range is all of it. */
  method Allocate<B>(used: set<int>, items: seq<B>, min: int, max: int, top: int)
    returns (res: seq<(B, int)>, wrapped: bool)
    requires IsRange(min, max, top)
    ensures res == Zip(items, FreeIds(used, Start(used, max, min, max), min, max, top))
    ensures !wrapped
  {
    var range := max - min;
    var next := Start(used, max, min, max);
    var offset := 0;
    res, wrapped := [], false;
    ghost var goal := Zip(items, FreeIds(used, next, min, max, top));
    assert items[0..] == items;
    for i := 0 to |items|
      invariant !wrapped && 0 <= offset <= range && min <= next <= max
      invariant goal == res + Zip(items[i..], Ahead(used, next, range + 1 - offset, min, max, top))
    {
      while true
        invariant !wrapped && 0 <= offset <= range && min <= next <= max
        invariant goal == res + Zip(items[i..], Ahead(used, next, range + 1 - offset, min, max, top))
        decreases range - offset
      {
        AheadStep(used, next, range + 1 - offset, min, max, top);
        wrapped := wrapped || (next != max && next == top);
        next := Next(next, min, max, top);
        if next in used {
          if offset == range {
            return;
          }
          wrapped := wrapped || offset == top;
          offset := Inc(offset, top);
        } else {
          TakeOne(res, items, i, next, Ahead(used, next, range - offset, min, max, top));
          res := res + [(items[i], next)];
          if offset == range {
            return;
          }
          wrapped := wrapped || offset == top;
          offset := Inc(offset, top);
          break;
        }
      }
    }
  }

  /** The free identifiers in the next `n` steps. */
  function Ahead(used: set<int>, x: int, n: int, min: int, max: int, top: int): seq<int>
    requires n >= 0
  {
    Free(used, Walk(x, n, min, max, top))
  }

  lemma AheadStep(used: set<int>, x: int, n: int, min: int, max: int, top: int)
    requires n > 0
    ensures var y := Next(x, min, max, top);
      && (y in used ==> Ahead(used, x, n, min, max, top) == Ahead(used, y, n - 1, min, max, top))
      && (y !in used ==> Ahead(used, x, n, min, max, top) == [y] + Ahead(used, y, n - 1, min, max, top))
      && Ahead(used, y, 0, min, max, top) == []
  {
    WalkStep(used, x, n, min, max, top);
    var rest := Ahead(used, Next(x, min, max, top), n - 1, min, max, top);
    assert [] + rest == rest;
  }

  /** `allocate_opt`: as `allocate`, and items left over are paired with nothing.  The offset
      counts one step too many: it wraps exactly when the range is the whole type and the last
      identifier is examined, that is, when there are more items than free identifiers before it. */
  method AllocateOpt<B>(used: set<int>, items: seq<B>, min: int, max: int, top: int)
    returns (res: seq<(B, Option<int>)>, wrapped: bool)
    requires IsRange(min, max, top)
    ensures var start := Start(used, max, min, max);
      && res == ZipOpt(items, FreeIds(used, start, min, max, top))
      && (wrapped <==> max - min == top && |items| > |Ahead(used, start, max - min, min, max, top)|)
  {
    var range := max - min;
    var next := Start(used, max, min, max);
    var offset := 0;
    var exhausted := false;
    res, wrapped := [], false;
    ghost var goal := ZipOpt(items, FreeIds(used, next, min, max, top));
    ghost var short := |Ahead(used, next, range, min, max, top)|;
    assert items[0..] == items;
    for i := 0 to |items|
      invariant min <= next <= max
      invariant Position(exhausted, offset, range, top, wrapped)
      invariant goal == res + ZipOpt(items[i..], Ahead(used, next, Left(exhausted, range, offset), min, max, top))
      invariant !exhausted ==> short == i + |Ahead(used, next, range - offset, min, max, top)|
      invariant exhausted ==> short < |items|
    {
      while true
        invariant min <= next <= max
        invariant Position(exhausted, offset, range, top, wrapped)
        invariant goal == res + ZipOpt(items[i..], Ahead(used, next, Left(exhausted, range, offset), min, max, top))
        invariant !exhausted ==> short == i + |Ahead(used, next, range - offset, min, max, top)|
        invariant exhausted ==> short < |items|
        decreases !exhausted, range - offset
      {
        if exhausted {
          TakeOneOpt(res, items, i, 0, []);
          assert Ahead(used, next, 0, min, max, top) == [];
          res := res + [(items[i], None)];
          break;
        }
        AheadStep(used, next, range + 1 - offset, min, max, top);
        ghost var rest := Ahead(used, Next(next, min, max, top), range - offset, min, max, top);
        if offset == range {
          exhausted := true;
        } else {
          AheadStep(used, next, range - offset, min, max, top);
        }
        next := Next(next, min, max, top);
        wrapped := wrapped || offset == top;
        offset := Inc(offset, top);
        if next !in used {
          TakeOneOpt(res, items, i, next, rest);
          res := res + [(items[i], Some(next))];
          break;
        }
      }
    }
  }

  /** Steps still to go in a walk that counts its steps. */
  function Left(exhausted: bool, range: int, offset: int): nat
    requires !exhausted ==> offset <= range
  {
    if exhausted then 0 else range + 1 - offset
  }

  ghost predicate Position(exhausted: bool, offset: int, range: int, top: int, wrapped: bool) {
    && (!exhausted ==> 0 <= offset <= range && !wrapped)
    && (exhausted ==> (wrapped <==> range == top))
  }

  lemma TakeMerged<A>(used: map<A, int>, res: seq<(A, int)>, items: seq<A>, i: nat, ids: seq<int>)
    requires i < |items|
    ensures items[i] in used ==>
      res + Merge(used, items[i..], ids) == (res + [(items[i], used[items[i]])]) + Merge(used, items[i + 1..], ids)
    ensures items[i] !in used && ids == [] ==>
      res + Merge(used, items[i..], ids) == res + Merge(used, items[i + 1..], ids)
    ensures items[i] !in used && ids != [] ==>
      res + Merge(used, items[i..], ids) == (res + [(items[i], ids[0])]) + Merge(used, items[i + 1..], ids[1..])
  {
    assert items[i..][1..] == items[i + 1..];
  }

  /** The keys without an existing allocation. */
  function NewKeys<A>(used: map<A, int>, items: seq<A>): seq<A> {
    if items == [] then []
    else (if items[0] in used then [] else [items[0]]) + NewKeys(used, items[1..])
  }

  lemma NewKeysStep<A>(used: map<A, int>, items: seq<A>, i: nat)
    requires i < |items|
    ensures |NewKeys(used, items[i..])| == (if items[i] in used then 0 else 1) + |NewKeys(used, items[i + 1..])|
  {
    assert items[i..][1..] == items[i + 1..];
  }

  /** `adjust_allocation`: existing allocations are kept; the scan serves the other keys.  Its
      offset wraps under the same condition as that of `allocate_opt`. */
  method AdjustAllocation<A(==)>(used: map<A, int>, items: seq<A>, min: int, max: int, top: int)
    returns (res: seq<(A, int)>, wrapped: bool)
    requires IsRange(min, max, top)
    ensures res == Merge(used, items, FreeIds(used.Values, Start(used.Values, max, min, max), min, max, top))
    ensures var start := Start(used.Values, max, min, max);
      wrapped <==> max - min == top && |NewKeys(used, items)| > |Ahead(used.Values, start, max - min, min, max, top)|
  {
    var range := max - min;
    var usedIds := used.Values;
    var next := Start(usedIds, max, min, max);
    var offset := 0;
    var exhausted := false;
    res, wrapped := [], false;
    ghost var goal := Merge(used, items, FreeIds(usedIds, next, min, max, top));
    ghost var short := |Ahead(usedIds, next, range, min, max, top)|;
    ghost var served := 0;
    assert items[0..] == items;
    for i := 0 to |items|
      invariant min <= next <= max
      invariant Position(exhausted, offset, range, top, wrapped)
      invariant goal ==
        res + Merge(used, items[i..], Ahead(usedIds, next, Left(exhausted, range, offset), min, max, top))
      invariant !exhausted ==> |NewKeys(used, items)| == served + |NewKeys(used, items[i..])|
      invariant !exhausted ==> short == served + |Ahead(usedIds, next, range - offset, min, max, top)|
      invariant exhausted ==> short < |NewKeys(used, items)|
    {
      NewKeysStep(used, items, i);
      if items[i] in used {
        TakeMerged(used, res, items, i, Ahead(usedIds, next, Left(exhausted, range, offset), min, max, top));
        res := res + [(items[i], used[items[i]])];
      } else {
        TakeMerged(used, res, items, i, Ahead(usedIds, next, Left(exhausted, range, offset), min, max, top));
        var found;
        found, next, offset, exhausted, wrapped := Scan(usedIds, next, offset, exhausted, wrapped, min, max, top);
        if found {
          res := res + [(items[i], next)];
          served := served + 1;
        }
      }
    }
  }

  /** The scan for one item: it stops at a free identifier or when the round is complete. */
  method Scan(used: set<int>, next0: int, offset0: int, exhausted0: bool, wrapped0: bool, min: int, max: int, top: int)
    returns (found: bool, next: int, offset: int, exhausted: bool, wrapped: bool)
    requires IsRange(min, max, top) && min <= next0 <= max
    requires Position(exhausted0, offset0, max - min, top, wrapped0)
    ensures min <= next <= max && Position(exhausted, offset, max - min, top, wrapped)
    ensures var before := Ahead(used, next0, Left(exhausted0, max - min, offset0), min, max, top);
      && (found ==> before == [next] + Ahead(used, next, Left(exhausted, max - min, offset), min, max, top))
      && (!found ==> before == [] && exhausted)
    ensures exhausted0 ==> exhausted && !found
    ensures !exhausted0 && !exhausted ==>
      |Ahead(used, next0, max - min - offset0, min, max, top)| ==
        1 + |Ahead(used, next, max - min - offset, min, max, top)|
    ensures !exhausted0 && exhausted ==> |Ahead(used, next0, max - min - offset0, min, max, top)| == 0
  {
    var range := max - min;
    next, offset, exhausted, wrapped, found := next0, offset0, exhausted0, wrapped0, false;
    while !exhausted && !found
      invariant min <= next <= max
      invariant Position(exhausted, offset, range, top, wrapped)
      invariant var before := Ahead(used, next0, Left(exhausted0, range, offset0), min, max, top);
        var after := Ahead(used, next, Left(exhausted, range, offset), min, max, top);
        before == if found then [next] + after else after
      invariant exhausted0 ==> exhausted && !found
      invariant !exhausted0 && !exhausted ==>
        |Ahead(used, next0, range - offset0, min, max, top)| ==
        (if found then 1 else 0) + |Ahead(used, next, range - offset, min, max, top)|
      invariant !exhausted0 && exhausted ==> |Ahead(used, next0, range - offset0, min, max, top)| == 0
      decreases !exhausted, !found, range - offset
    {
      AheadStep(used, next, range + 1 - offset, min, max, top);
      if offset == range {
        exhausted := true;
      } else {
        AheadStep(used, next, range - offset, min, max, top);
      }
      next := Next(next, min, max, top);
      wrapped := wrapped || offset == top;
      offset := Inc(offset, top);
      found := next !in used;
    }
  }

  // ---- hints -----------------------------------------------------------------------------

  function Cursor(hint: Option<int>, next: int): int {
    match hint
    case None => next
    case Some(h) => h
  }

  /** The run of `allocate_with_hint` from inside the scan for the first item, which may still
      look at `left` identifiers after `cur`. */
  function HintScan<B>(taken: set<int>, items: seq<(B, Option<int>)>, cur: int, left: nat, min: int, max: int, top: int)
    : seq<(B, int)>
    requires items != [] && min <= max
    decreases |items|, 0, left
  {
    if cur !in taken then
      [(items[0].0, cur)] +
      (if left == 0 then [] else HintRun(taken + {cur}, items[1..], Next(cur, min, max, top), min, max, top))
    else if left == 0 then []
    else HintScan(taken, items, Next(cur, min, max, top), left - 1, min, max, top)
  }

  function HintRun<B>(taken: set<int>, items: seq<(B, Option<int>)>, next: int, min: int, max: int,
                      top: int): seq<(B, int)>
    requires min <= max
    decreases |items|, 1, 0
  {
    if items == [] then []
    else HintScan(taken, items, Cursor(items[0].1, next), max - min, min, max, top)
  }

  ghost predicate HintsFit<B>(items: seq<(B, Option<int>)>, min: int, max: int) {
    forall i :: 0 <= i < |items| && items[i].1.Some? ==> min <= items[i].1.value <= max
  }

  /** One look of the scan at an identifier. */
  lemma HintStep<B>(taken: set<int>, res: seq<(B, int)>, items: seq<(B, Option<int>)>, i: nat, cur: int, left: nat,
                    min: int, max: int, top: int)
    requires i < |items| && min <= max
    ensures var next := Next(cur, min, max, top);
      && (cur in taken && left == 0 ==> res + HintScan(taken, items[i..], cur, left, min, max, top) == res)
      && (cur in taken && left > 0 ==>
            HintScan(taken, items[i..], cur, left, min, max, top) ==
              HintScan(taken, items[i..], next, left - 1, min, max, top))
      && (cur !in taken && left == 0 ==>
            res + HintScan(taken, items[i..], cur, left, min, max, top) == res + [(items[i].0, cur)])
      && (cur !in taken && left > 0 ==>
            res + HintScan(taken, items[i..], cur, left, min, max, top) ==
            res + [(items[i].0, cur)] + HintRun(taken + {cur}, items[i + 1..], next, min, max, top))
  {
    assert items[i..][1..] == items[i + 1..];
  }

  /** `allocate_with_hint`.  Hints that lie in the range keep all arithmetic in the type. */
  method AllocateWithHint<B>(used: set<int>, items: seq<(B, Option<int>)>, min: int, max: int, top: int)
    returns (res: seq<(B, int)>, wrapped: bool)
    requires IsRange(min, max, top)
    ensures res == HintRun(used, items, Start(used, min, min, max), min, max, top)
    ensures HintsFit(items, min, max) ==> !wrapped
  {
    var range := max - min;
    var allocations: set<int> := {};
    var next := Start(used, min, min, max);
    res, wrapped := [], false;
    ghost var goal := HintRun(used, items, next, min, max, top);
    assert items[0..] == items && used + {} == used;
    for i := 0 to |items|
      invariant goal == res + HintRun(used + allocations, items[i..], next, min, max, top)
      invariant HintsFit(items, min, max) ==> !wrapped && min <= next <= max
    {
      var offset := 0;
      next := Cursor(items[i].1, next);
      while true
        invariant 0 <= offset <= range
        invariant goal == res + HintScan(used + allocations, items[i..], next, range - offset, min, max, top)
        invariant HintsFit(items, min, max) ==> !wrapped && min <= next <= max
        decreases range - offset
      {
        HintStep(used + allocations, res, items, i, next, range - offset, min, max, top);
        if next in used || next in allocations {
          if offset == range {
            return;
          }
          offset := offset + 1;
          wrapped := wrapped || (next != max && next == top);
          next := Next(next, min, max, top);
        } else {
          res := res + [(items[i].0, next)];
          assert used + (allocations + {next}) == used + allocations + {next};
          allocations := allocations + {next};
          if offset == range {
            return;
          }
          wrapped := wrapped || (next != max && next == top);
          next := Next(next, min, max, top);
          break;
        }
      }
    }
  }
}
