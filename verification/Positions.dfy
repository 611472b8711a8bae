/**
 The loop `reorderRouteStops`, `removeRouteStop` and the scheduling backfill share: write positions
 1, 2, 3, ... to the rows of a list, one UPDATE at a time, inside one transaction.

 A route's rows are a map from row to position. The database has a unique index on (route, position)
 that is checked at every UPDATE, not at commit, so a write to a place another row still holds fails
 the transaction. `unique` says whether that index is there; without it every write succeeds.
 */
module Positions {
  import opened Prelude

  type Row = nat

  predicate Distinct(list: seq<Row>) {
    forall i, j | 0 <= i < j < |list| :: list[i] != list[j]
  }

  function Rows(list: seq<Row>): set<Row> { set x | x in list }

  /** `t` is one of the first `n` entries. */
  predicate Among(list: seq<Row>, n: int, t: Row)
    requires n <= |list|
  {
    exists i :: 0 <= i < n && list[i] == t
  }

  function IndexOf(list: seq<Row>, k: Row): (i: nat)
    requires k in list
    ensures i < |list| && list[i] == k && forall j | 0 <= j < i :: list[j] != k
  {
    if list[0] == k then 0 else 1 + IndexOf(list[1..], k)
  }

  /** The positions after all writes of a duplicate-free list. */
  function Placed(pos: map<Row, int>, list: seq<Row>): map<Row, int> {
    map k | k in pos.Keys + Rows(list) :: if k in list then IndexOf(list, k) + 1 else pos[k]
  }

  /** No row now holding one of the places to be written is left out of the list or moved to a later place. */
  predicate Clear(pos: map<Row, int>, list: seq<Row>) {
    forall t | t in pos && 1 <= pos[t] <= |list| :: Among(list, pos[t], t)
  }

  /** The table after the first `n` writes. */
  ghost predicate Written(pos: map<Row, int>, list: seq<Row>, n: nat, work: map<Row, int>)
    requires n <= |list|
  {
    && (forall k :: k in work <==> k in pos || Among(list, n, k))
    && (forall i | 0 <= i < n :: work[list[i]] == i + 1)
    && (forall k | k in pos && !Among(list, n, k) :: work[k] == pos[k])
  }

  lemma WriteOne(pos: map<Row, int>, list: seq<Row>, n: nat, work: map<Row, int>)
    requires Distinct(list) && n < |list| && Written(pos, list, n, work)
    ensures Written(pos, list, n + 1, work[list[n] := n + 1])
  {
    forall k ensures Among(list, n + 1, k) <==> Among(list, n, k) || k == list[n] {
      if k == list[n] {
        assert list[n] == k;
      }
    }
  }

  lemma WrittenAll(pos: map<Row, int>, list: seq<Row>, work: map<Row, int>)
    requires Written(pos, list, |list|, work)
    ensures work == Placed(pos, list)
  {
    var placed := Placed(pos, list);
    forall k ensures k in work <==> k in placed {
      assert k in list <==> Among(list, |list|, k);
    }
    forall k | k in work ensures work[k] == placed[k] {
      if k in list {
        assert list[IndexOf(list, k)] == k;
      }
    }
  }

  ghost predicate ClearTo(pos: map<Row, int>, list: seq<Row>, n: nat)
    requires n <= |list|
  {
    forall t | t in pos && 1 <= pos[t] <= n :: Among(list, pos[t], t)
  }

  /** Another row in the place about to be written has been there from the start, and is not listed yet. */
  lemma Clash(pos: map<Row, int>, list: seq<Row>, n: nat, work: map<Row, int>, t: Row)
    requires Distinct(list) && n < |list| && Written(pos, list, n, work)
    requires t in work && t != list[n] && work[t] == n + 1
    ensures !Clear(pos, list)
  {
    assert !Among(list, n, t);
    assert t in pos && pos[t] == n + 1 && !Among(list, n + 1, t);
  }

  lemma NoClash(pos: map<Row, int>, list: seq<Row>, n: nat, work: map<Row, int>)
    requires n < |list| && Written(pos, list, n, work) && ClearTo(pos, list, n)
    requires forall t | t in work :: t == list[n] || work[t] != n + 1
    ensures ClearTo(pos, list, n + 1)
  {
    forall t | t in pos && pos[t] == n + 1 ensures Among(list, n + 1, t) {
      if !Among(list, n, t) {
        assert t in work && work[t] == n + 1;
        assert list[n] == t;
      }
    }
  }

  /** The transaction: commits exactly when the index is absent or the rows are `Clear`. */
  method WriteSequence(pos: map<Row, int>, list: seq<Row>, unique: bool) returns (r: Option<map<Row, int>>)
    requires Distinct(list)
    ensures r.Some? <==> (unique ==> Clear(pos, list))
    ensures r.Some? ==> r.value == Placed(pos, list)
  {
    var work := pos;
    var index := 0;
    while index < |list|
      invariant index <= |list|
      invariant Written(pos, list, index, work)
      invariant unique ==> ClearTo(pos, list, index)
    {
      if unique {
        if t :| t in work && t != list[index] && work[t] == index + 1 {
          Clash(pos, list, index, work, t);
          return None;
        }
        NoClash(pos, list, index, work);
      }
      WriteOne(pos, list, index, work);
      work := work[list[index] := index + 1];
      index := index + 1;
    }
    WrittenAll(pos, list, work);
    r := Some(work);
  }

  // ---------------------------------------------------------------- contiguous numbering

  ghost predicate Injective(pos: map<Row, int>) {
    forall a, b | a in pos && b in pos && pos[a] == pos[b] :: a == b
  }

  ghost predicate InRange(pos: map<Row, int>) {
    forall k | k in pos :: 1 <= pos[k] <= |pos|
  }

  /** The positions are exactly 1..n, each once. */
  ghost predicate Contiguous(pos: map<Row, int>) { InRange(pos) && Injective(pos) }

  function UpTo(n: nat): (s: set<int>)
    ensures |s| == n && forall p :: p in s <==> 1 <= p <= n
  {
    if n == 0 then {} else UpTo(n - 1) + {n}
  }

  lemma {:induction false} ImageSize(pos: map<Row, int>, keys: set<Row>)
    requires keys <= pos.Keys && Injective(pos)
    ensures |set k | k in keys :: pos[k]| == |keys|
    decreases |keys|
  {
    var image := set k | k in keys :: pos[k];
    if keys != {} {
      var x :| x in keys;
      ImageSize(pos, keys - {x});
      var rest := set k | k in keys - {x} :: pos[k];
      assert image == rest + {pos[x]};
    } else {
      assert image == {};
    }
  }

  /** Pigeonhole: every place 1..n of a contiguous route is held. */
  lemma EveryPlaceIsHeld(pos: map<Row, int>, p: int) returns (k: Row)
    requires Contiguous(pos) && 1 <= p <= |pos|
    ensures k in pos && pos[k] == p
  {
    var image := set k | k in pos.Keys :: pos[k];
    ImageSize(pos, pos.Keys);
    assert |pos.Keys| == |pos|;
    SubsetOfSameSize(image, UpTo(|pos|));
    assert p in image;
    k :| k in pos && pos[k] == p;
  }

  lemma MapSize(pos: map<Row, int>, k: Row, p: int)
    ensures |pos[k := p]| == if k in pos then |pos| else |pos| + 1
    ensures |pos - {k}| == if k in pos then |pos| - 1 else |pos|
  {
    assert pos[k := p].Keys == pos.Keys + {k} && (pos - {k}).Keys == pos.Keys - {k};
    assert |pos| == |pos.Keys| && |pos[k := p]| == |pos[k := p].Keys| && |pos - {k}| == |(pos - {k}).Keys|;
  }

  lemma AppendNext(pos: map<Row, int>, k: Row)
    requires Contiguous(pos) && k !in pos
    ensures Contiguous(pos[k := |pos| + 1])
  {
    MapSize(pos, k, |pos| + 1);
  }

  /** A further row keeps the numbering exactly when it takes the next place. */
  lemma AppendContiguousIff(pos: map<Row, int>, k: Row, p: int)
    requires Contiguous(pos) && k !in pos
    ensures Contiguous(pos[k := p]) <==> p == |pos| + 1
  {
    MapSize(pos, k, p);
    var after := pos[k := p];
    if 1 <= p <= |pos| {
      var t := EveryPlaceIsHeld(pos, p);
      assert t in after && k in after && t != k && after[t] == after[k];
      assert !Injective(after);
    } else if p == |pos| + 1 {
      AppendNext(pos, k);
    } else {
      assert k in after && !InRange(after);
    }
  }

  /** Taking a row away keeps the numbering exactly when it is the last. */
  lemma DropContiguousIff(pos: map<Row, int>, k: Row)
    requires Contiguous(pos) && k in pos
    ensures Contiguous(pos - {k}) <==> pos[k] == |pos|
  {
    MapSize(pos, k, 0);
    var after := pos - {k};
    if pos[k] != |pos| {
      var t := EveryPlaceIsHeld(pos, |pos|);
      assert t in after && after[t] > |after|;
    }
  }

  /** Renumbering one row keeps the numbering exactly when it keeps its place. */
  lemma ReplaceContiguousIff(pos: map<Row, int>, k: Row, p: int)
    requires Contiguous(pos) && k in pos
    ensures Contiguous(pos[k := p]) <==> p == pos[k]
  {
    MapSize(pos, k, p);
    var after := pos[k := p];
    if p == pos[k] {
      assert after == pos;
    } else if 1 <= p <= |pos| {
      var t := EveryPlaceIsHeld(pos, p);
      assert t in after && k in after && t != k && after[t] == after[k];
      assert !Injective(after);
    } else {
      assert k in after && !InRange(after);
    }
  }

  /** Writing a list keeps the numbering exactly when no row left out holds one of the places written. */
  lemma WriteContiguousIff(pos: map<Row, int>, list: seq<Row>)
    requires Contiguous(pos) && Distinct(list) && forall k | k in list :: k in pos
    ensures Contiguous(Placed(pos, list)) <==> forall t | t in pos && pos[t] <= |list| :: t in list
  {
    ListFits(pos, list);
    var placed := Placed(pos, list);
    assert placed.Keys == pos.Keys;
    assert |placed| == |placed.Keys| && |pos| == |pos.Keys|;
    if t :| t in pos && pos[t] <= |list| && t !in list {
      var u := list[pos[t] - 1];
      assert u in list && list[IndexOf(list, u)] == u;
      assert placed[u] == placed[t] && u != t;
    } else {
      forall k | k in placed ensures 1 <= placed[k] <= |placed| {}
      forall a, b | a in placed && b in placed && placed[a] == placed[b] ensures a == b {
        if a in list && b in list {
          assert list[IndexOf(list, a)] == a && list[IndexOf(list, b)] == b;
        }
      }
    }
  }

  /** Naming exactly the rows already in places 1, 2, 3, ... in that order. */
  predicate InPlace(pos: map<Row, int>, list: seq<Row>) {
    forall i | 0 <= i < |list| :: list[i] in pos && pos[list[i]] == i + 1
  }

  /** A clear list of rows of a contiguous route is in place, by induction on the place. */
  lemma {:induction false} ClearIsInPlace(pos: map<Row, int>, list: seq<Row>, n: nat)
    requires Contiguous(pos) && (forall k | k in list :: k in pos)
    requires Distinct(list) && Clear(pos, list) && n <= |list|
    ensures forall i | 0 <= i < n :: pos[list[i]] == i + 1
  {
    if n > 0 {
      ClearIsInPlace(pos, list, n - 1);
      ListFits(pos, list);
      var t := EveryPlaceIsHeld(pos, n);
      assert Among(list, n, t);
      var i :| 0 <= i < n && list[i] == t;
      assert i == n - 1;
    }
  }

  /** On a contiguous route the index lets only those lists through that are in place already, and
      writing them changes nothing. */
  lemma OnlyTheCurrentOrderIsClear(pos: map<Row, int>, list: seq<Row>)
    requires Contiguous(pos) && Distinct(list) && (forall k | k in list :: k in pos)
    ensures Clear(pos, list) <==> InPlace(pos, list)
    ensures Clear(pos, list) ==> Placed(pos, list) == pos
  {
    if Clear(pos, list) {
      ClearIsInPlace(pos, list, |list|);
      forall i | 0 <= i < |list| ensures list[i] in pos { assert list[i] in list; }
    }
    if InPlace(pos, list) {
      forall t | t in pos && 1 <= pos[t] <= |list| ensures Among(list, pos[t], t) {
        assert list[pos[t] - 1] == t;
      }
      var placed := Placed(pos, list);
      forall k | k in placed ensures k in pos && placed[k] == pos[k] {
        if k in list {
          assert list[IndexOf(list, k)] == k;
        }
      }
    }
  }

  lemma {:induction false} ListSize(list: seq<Row>)
    requires Distinct(list)
    ensures |Rows(list)| == |list|
  {
    var s := Rows(list);
    if list != [] {
      var rest := list[1..];
      assert forall i | 0 <= i < |rest| :: rest[i] == list[i + 1];
      ListSize(rest);
      var t := Rows(rest);
      assert list[0] !in t;
      forall x ensures x in s <==> x in t + {list[0]} {
        if x in s && x != list[0] {
          var i :| 0 <= i < |list| && list[i] == x;
          assert rest[i - 1] == x;
        }
      }
      assert s == t + {list[0]};
    } else {
      assert s == {};
    }
  }

  lemma ListFits(pos: map<Row, int>, list: seq<Row>)
    requires Distinct(list) && forall k | k in list :: k in pos
    ensures |list| <= |pos|
    ensures |list| == |pos| <==> (forall k | k in pos :: k in list)
  {
    var s := Rows(list);
    assert |pos| == |pos.Keys|;
    ListSize(list);
    SubsetSize(s, pos.Keys);
    if |list| == |pos| {
      SubsetOfSameSize(s, pos.Keys);
    }
    if forall k | k in pos :: k in list {
      assert s == pos.Keys;
    }
  }

  // ---------------------------------------------------------------- ordered readings

  /** A reading `ORDER BY position`: every row once, positions ascending, ties in any order. */
  ghost predicate Listing(pos: map<Row, int>, order: seq<Row>) {
    && Distinct(order)
    && (forall k :: k in order <==> k in pos)
    && (forall i, j | 0 <= i < j < |order| :: pos[order[i]] <= pos[order[j]])
  }

  lemma {:induction false} HighestExists(pos: map<Row, int>, keys: set<Row>) returns (last: Row)
    requires keys <= pos.Keys && keys != {}
    ensures last in keys && forall j | j in keys :: pos[j] <= pos[last]
    decreases |keys|
  {
    last :| last in keys;
    if keys != {last} {
      assert keys - {last} != {};
      var other := HighestExists(pos, keys - {last});
      if pos[other] > pos[last] {
        last := other;
      }
    }
  }

  /** Some of the rows, read in order of position. */
  ghost predicate ListingOf(pos: map<Row, int>, keys: set<Row>, order: seq<Row>)
    requires keys <= pos.Keys
  {
    && Distinct(order) && (forall k :: k in order <==> k in keys)
    && (forall i, j | 0 <= i < j < |order| && order[i] in pos && order[j] in pos :: pos[order[i]] <= pos[order[j]])
  }

  lemma {:induction false} ListingOfExists(pos: map<Row, int>, keys: set<Row>) returns (order: seq<Row>)
    requires keys <= pos.Keys
    ensures ListingOf(pos, keys, order)
    decreases |keys|
  {
    if keys == {} {
      order := [];
    } else {
      var last := HighestExists(pos, keys);
      var init := ListingOfExists(pos, keys - {last});
      order := init + [last];
      forall i | 0 <= i < |init| ensures init[i] in keys && init[i] != last && pos[init[i]] <= pos[last] {
        assert init[i] in init;
      }
    }
  }

  /** The database can always read a route in order. */
  lemma ListingExists(pos: map<Row, int>) returns (order: seq<Row>)
    ensures Listing(pos, order)
  {
    order := ListingOfExists(pos, pos.Keys);
    forall i, j | 0 <= i < j < |order| ensures pos[order[i]] <= pos[order[j]] {
      assert order[i] in order && order[j] in order;
    }
  }

  /** Writing a list of all rows numbers them 1..n in list order, whatever the positions were. */
  lemma FullListIsContiguous(pos: map<Row, int>, list: seq<Row>)
    requires Distinct(list) && forall k :: k in list <==> k in pos
    ensures var placed := Placed(pos, list);
            && Contiguous(placed) && placed.Keys == pos.Keys
            && InPlace(placed, list) && Listing(placed, list)
  {
    ListFits(pos, list);
    var placed := Placed(pos, list);
    assert placed.Keys == pos.Keys;
    assert |placed| == |placed.Keys| == |pos.Keys| == |pos| == |list|;
    forall i | 0 <= i < |list| ensures list[i] in placed && placed[list[i]] == i + 1 {
      assert list[i] in list;
    }
  }

  /** In a listing of a contiguous route the i-th row is in place i + 1. */
  lemma {:induction false} ListingIsInPlace(pos: map<Row, int>, order: seq<Row>, n: nat)
    requires Contiguous(pos) && Listing(pos, order) && n <= |order|
    ensures forall i | 0 <= i < n :: pos[order[i]] == i + 1
  {
    if n > 0 {
      ListingIsInPlace(pos, order, n - 1);
      ListFits(pos, order);
      var k := EveryPlaceIsHeld(pos, n);
      var j := IndexOf(order, k);
      assert j >= n - 1;
      assert order[n - 1] in order;
      if n > 1 {
        assert order[n - 2] in order && pos[order[n - 2]] <= pos[order[n - 1]] && order[n - 2] != order[n - 1];
      }
    }
  }

  /** Reading a route back after writing a full list gives that list, and nothing else. */
  lemma ReadBack(pos: map<Row, int>, list: seq<Row>, order: seq<Row>)
    requires Distinct(list) && (forall k :: k in list <==> k in pos)
    requires Listing(Placed(pos, list), order)
    ensures order == list
  {
    var placed := Placed(pos, list);
    FullListIsContiguous(pos, list);
    ListFits(placed, order);
    ListFits(placed, list);
    ListingIsInPlace(placed, order, |order|);
    SameRows(placed, list, order);
  }

  lemma SameRows(pos: map<Row, int>, list: seq<Row>, order: seq<Row>)
    requires Injective(pos) && InPlace(pos, list) && InPlace(pos, order) && |list| == |order|
    ensures list == order
  {
    forall i | 0 <= i < |list| ensures list[i] == order[i] {
      assert pos[list[i]] == pos[order[i]];
    }
  }

  lemma {:induction false} RanksBelow(pos: map<Row, int>, order: seq<Row>, n: nat)
    requires Listing(pos, order) && Injective(pos) && (forall k | k in pos :: pos[k] >= 1) && n <= |order|
    ensures forall i | 0 <= i < n :: i < pos[order[i]]
  {
    if n > 0 {
      RanksBelow(pos, order, n - 1);
      assert order[n - 1] in order;
      if n > 1 {
        assert order[n - 2] in order && pos[order[n - 2]] <= pos[order[n - 1]] && order[n - 2] != order[n - 1];
      }
    }
  }

  /** Rows in strictly ascending, positive places can always be closed up, index or not. */
  lemma AscendingIsClear(pos: map<Row, int>, order: seq<Row>)
    requires Listing(pos, order) && Injective(pos) && forall k | k in pos :: pos[k] >= 1
    ensures Clear(pos, order)
  {
    RanksBelow(pos, order, |order|);
    forall t | t in pos && 1 <= pos[t] <= |order| ensures Among(order, pos[t], t) {
      var i := IndexOf(order, t);
      assert i < pos[t] && order[i] == t;
    }
  }

  /** Closing up keeps every pair of rows whose places differed in order. */
  lemma ClosingUpKeepsOrder(pos: map<Row, int>, order: seq<Row>, a: Row, b: Row)
    requires Listing(pos, order) && a in pos && b in pos && pos[a] < pos[b]
    ensures Placed(pos, order)[a] < Placed(pos, order)[b]
  {
    var i, j := IndexOf(order, a), IndexOf(order, b);
    assert order[i] == a && order[j] == b && i < j;
  }

  /** Closing up a route read in order: the two facts above, and the numbering 1..n. */
  lemma CloseUp(pos: map<Row, int>, order: seq<Row>)
    requires Listing(pos, order)
    ensures Contiguous(Placed(pos, order)) && InPlace(Placed(pos, order), order) && Placed(pos, order).Keys == pos.Keys
    ensures forall a, b | a in pos && b in pos && pos[a] < pos[b] :: Placed(pos, order)[a] < Placed(pos, order)[b]
    ensures Injective(pos) && (forall k | k in pos :: pos[k] >= 1) ==> Clear(pos, order)
  {
    FullListIsContiguous(pos, order);
    forall a, b | a in pos && b in pos && pos[a] < pos[b]
      ensures Placed(pos, order)[a] < Placed(pos, order)[b]
    {
      ClosingUpKeepsOrder(pos, order, a, b);
    }
    if Injective(pos) && forall k | k in pos :: pos[k] >= 1 {
      AscendingIsClear(pos, order);
    }
  }
}
