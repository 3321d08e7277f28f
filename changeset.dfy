/** The changeset: which reaches were removed, added or changed between the
    old and the new layer, and the changelog row of each. */
module Changeset {
  import opened Values
  import opened Rows
  import opened Label
  import opened KeyOrder

  /** The pseudo-field named in a label when the two areas differ. */
  const AreaField := "Shape__Area"

  datatype KeySets = KeySets(removed: set<string>, added: set<string>, changed: set<string>)

  /** Keys only in old are removed, keys only in new are added, keys in both
      are the candidates for a change. */
  function Partition(oldKeys: set<string>, newKeys: set<string>): (p: KeySets)
    ensures p.removed !! p.added && p.removed !! p.changed && p.added !! p.changed
    ensures p.removed + p.added + p.changed == oldKeys + newKeys
    ensures p.changed == oldKeys * newKeys
    ensures p.removed <= oldKeys && p.added <= newKeys
  {
    KeySets(oldKeys - newKeys, newKeys - oldKeys, newKeys * oldKeys)
  }

  /** The i-th field pair holds different values in the two features. */
  predicate PairDiffers(o: Feature, n: Feature, oldFields: seq<string>, newFields: seq<string>, i: nat)
    requires |oldFields| == |newFields| && i < |newFields|
  {
    Get(o.attrs, oldFields[i]) != Get(n.attrs, newFields[i])
  }

  /** Each position is below every later one. */
  predicate Ascending(r: seq<nat>)
  {
    forall a, b :: 0 <= a < b < |r| ==> r[a] < r[b]
  }

  /** The positions below k of the pairs that differ, in ascending order. */
  function DiffIndices(o: Feature, n: Feature, oldFields: seq<string>, newFields: seq<string>, k: nat): (r: seq<nat>)
    requires |oldFields| == |newFields| && k <= |newFields|
    ensures forall j :: 0 <= j < |r| ==> r[j] < k
  {
    if k == 0 then []
    else DiffIndices(o, n, oldFields, newFields, k - 1)
         + (if PairDiffers(o, n, oldFields, newFields, k - 1) then [k - 1] else [])
  }

  /** DiffIndices lists exactly the differing positions, each once and in field order. */
  lemma {:induction false} DiffIndicesExact(o: Feature, n: Feature, oldFields: seq<string>, newFields: seq<string>, k: nat)
    requires |oldFields| == |newFields| && k <= |newFields|
    ensures forall i: nat :: i in DiffIndices(o, n, oldFields, newFields, k) <==>
                               i < k && PairDiffers(o, n, oldFields, newFields, i)
    ensures Ascending(DiffIndices(o, n, oldFields, newFields, k))
  {
    if k > 0 {
      DiffIndicesExact(o, n, oldFields, newFields, k - 1);
      var prev := DiffIndices(o, n, oldFields, newFields, k - 1);
      var last: seq<nat> := if PairDiffers(o, n, oldFields, newFields, k - 1) then [k - 1] else [];
      var r := prev + last;
      assert r == DiffIndices(o, n, oldFields, newFields, k);
      forall i: nat ensures i in r <==> i < k && PairDiffers(o, n, oldFields, newFields, i) {
        assert i in r <==> i in prev || i in last;
      }
      forall a, b | 0 <= a < b < |r| ensures r[a] < r[b] {
        if b >= |prev| {
          assert r[b] == k - 1 && r[a] == prev[a];
        } else {
          assert r[a] == prev[a] && r[b] == prev[b];
        }
      }
    }
  }

  /** The names `fields[i]` for the positions i in `idx`. */
  function Names(fields: seq<string>, idx: seq<nat>): (r: seq<string>)
    requires forall j :: 0 <= j < |idx| ==> idx[j] < |fields|
    ensures |r| == |idx| && forall j :: 0 <= j < |idx| ==> r[j] == fields[idx[j]]
  {
    seq(|idx|, j requires 0 <= j < |idx| => fields[idx[j]])
  }

  /** `what_changed`: the new-side names of the differing pairs in field
      order, then Shape__Area if the formatted areas differ. */
  function WhatChanged(o: Feature, n: Feature, oldFields: seq<string>, newFields: seq<string>): seq<string>
    requires |oldFields| == |newFields|
  {
    Names(newFields, DiffIndices(o, n, oldFields, newFields, |newFields|))
      + (if o.area != n.area then [AreaField] else [])
  }

  /** Nothing is listed exactly when every pair and the area agree. */
  lemma WhatChangedEmpty(o: Feature, n: Feature, oldFields: seq<string>, newFields: seq<string>)
    requires |oldFields| == |newFields|
    ensures WhatChanged(o, n, oldFields, newFields) == [] <==>
            (forall i :: 0 <= i < |newFields| ==> Get(o.attrs, oldFields[i]) == Get(n.attrs, newFields[i]))
            && o.area == n.area
  {
    DiffIndicesExact(o, n, oldFields, newFields, |newFields|);
    var idx := DiffIndices(o, n, oldFields, newFields, |newFields|);
    var names := Names(newFields, idx);
    if idx == [] {
      forall i | 0 <= i < |newFields| ensures Get(o.attrs, oldFields[i]) == Get(n.attrs, newFields[i]) {
        assert i !in idx;
      }
    } else {
      assert idx[0] in idx;
      assert |names| > 0;
    }
  }

  /** The loop over the field pairs that collects `what_changed`. */
  method CollectChanges(o: Feature, n: Feature, oldFields: seq<string>, newFields: seq<string>)
    returns (what: seq<string>)
    requires |oldFields| == |newFields|
    ensures what == WhatChanged(o, n, oldFields, newFields)
  {
    what := [];
    for i := 0 to |newFields|
      invariant what == Names(newFields, DiffIndices(o, n, oldFields, newFields, i))
    {
      ghost var idx := DiffIndices(o, n, oldFields, newFields, i);
      if Get(o.attrs, oldFields[i]) != Get(n.attrs, newFields[i]) {
        assert Names(newFields, idx + [i]) == Names(newFields, idx) + [newFields[i]];
        what := what + [newFields[i]];
      } else {
        assert idx + [] == idx;
      }
    }
    if o.area != n.area {
      what := what + [AreaField];
    }
  }

  /** A key belongs to the changeset when it is in only one layer, or in
      both with something listed in `what_changed`. */
  predicate Retained(oldDict: map<string, Feature>, newDict: map<string, Feature>,
                     oldFields: seq<string>, newFields: seq<string>, k: string)
    requires |oldFields| == |newFields|
  {
    && (k in oldDict || k in newDict)
    && (k in oldDict && k in newDict ==> WhatChanged(oldDict[k], newDict[k], oldFields, newFields) != [])
  }

  /** The row the engine writes for a key of either layer. */
  function RowOf(oldDict: map<string, Feature>, newDict: map<string, Feature>,
                 oldFields: seq<string>, newFields: seq<string>, k: string): Row
    requires |oldFields| == |newFields| && (k in oldDict || k in newDict)
  {
    if k in newDict && k in oldDict then
      ChangedRow(k, ChangeLabel(WhatChanged(oldDict[k], newDict[k], oldFields, newFields)),
                 oldDict[k], newDict[k], oldFields, newFields)
    else if k in newDict then AddedRow(k, newDict[k], newFields)
    else RemovedRow(k, oldDict[k], oldFields)
  }

  /** The dictionary `data` once both loops have run: a row for every
      retained key and for no other. */
  function Changes(oldDict: map<string, Feature>, newDict: map<string, Feature>,
                   oldFields: seq<string>, newFields: seq<string>): map<string, Row>
    requires |oldFields| == |newFields|
  {
    map k | k in oldDict.Keys + newDict.Keys && Retained(oldDict, newDict, oldFields, newFields, k)
      :: RowOf(oldDict, newDict, oldFields, newFields, k)
  }

  /** Added and removed keys are always in the changeset; a key in both is
      in it exactly when some field pair or the area differs. */
  lemma ChangesDomain(oldDict: map<string, Feature>, newDict: map<string, Feature>,
                      oldFields: seq<string>, newFields: seq<string>, k: string)
    requires |oldFields| == |newFields|
    ensures k in Partition(oldDict.Keys, newDict.Keys).removed ==> k in Changes(oldDict, newDict, oldFields, newFields)
    ensures k in Partition(oldDict.Keys, newDict.Keys).added ==> k in Changes(oldDict, newDict, oldFields, newFields)
    ensures k in Partition(oldDict.Keys, newDict.Keys).changed ==>
            (k in Changes(oldDict, newDict, oldFields, newFields) <==>
               (exists i :: 0 <= i < |newFields| && Get(oldDict[k].attrs, oldFields[i]) != Get(newDict[k].attrs, newFields[i]))
               || oldDict[k].area != newDict[k].area)
    ensures k in Changes(oldDict, newDict, oldFields, newFields) ==> k in oldDict.Keys + newDict.Keys
  {
    if k in oldDict && k in newDict {
      WhatChangedEmpty(oldDict[k], newDict[k], oldFields, newFields);
    }
  }

  /** Every row of the changeset has 2 + 2n + 2 entries and starts with its
      key; an added row is Null on the old side, a removed row Null on the new
      side, a changed row carries both values of every pair; and the last two
      entries of a changed row differ exactly when the areas differ. */
  lemma ChangesRowShape(oldDict: map<string, Feature>, newDict: map<string, Feature>,
                        oldFields: seq<string>, newFields: seq<string>, k: string)
    requires |oldFields| == |newFields|
    requires k in Changes(oldDict, newDict, oldFields, newFields)
    ensures var r := Changes(oldDict, newDict, oldFields, newFields)[k];
            && |r| == 2 * |newFields| + 4 && r[0] == Str(k)
            && (k in newDict && k !in oldDict ==>
                  Shaped(r, k, "Added", Nulls(|newFields|), Lookup(newDict[k].attrs, newFields), Null, Str(newDict[k].area)))
            && (k in oldDict && k !in newDict ==>
                  Shaped(r, k, "Removed", Lookup(oldDict[k].attrs, oldFields), Nulls(|oldFields|), Str(oldDict[k].area), Null))
            && (k in oldDict && k in newDict ==>
                  && Shaped(r, k, ChangeLabel(WhatChanged(oldDict[k], newDict[k], oldFields, newFields)),
                            Lookup(oldDict[k].attrs, oldFields), Lookup(newDict[k].attrs, newFields),
                            Str(oldDict[k].area), Str(newDict[k].area))
                  && (r[|r| - 1] != r[|r| - 2] <==> oldDict[k].area != newDict[k].area))
  {
    if k in newDict && k in oldDict {
      ChangedRowShape(k, ChangeLabel(WhatChanged(oldDict[k], newDict[k], oldFields, newFields)),
                      oldDict[k], newDict[k], oldFields, newFields);
    } else if k in newDict {
      AddedRowShape(k, newDict[k], newFields);
    } else {
      RemovedRowShape(k, oldDict[k], oldFields);
    }
  }

  /** A changed key's label names what differs: "Changed A", "Changed A & B"
      or "Changed A, B, & C". */
  lemma ChangedLabelReads(oldDict: map<string, Feature>, newDict: map<string, Feature>,
                          oldFields: seq<string>, newFields: seq<string>, k: string)
    requires |oldFields| == |newFields|
    requires k in Changes(oldDict, newDict, oldFields, newFields) && k in oldDict && k in newDict
    ensures var what := WhatChanged(oldDict[k], newDict[k], oldFields, newFields);
            && what != []
            && Changes(oldDict, newDict, oldFields, newFields)[k][1] == Str("Changed " + EnglishList(what))
  {
    var what := WhatChanged(oldDict[k], newDict[k], oldFields, newFields);
    ChangeLabelReads(what);
  }

  /** What the changeset holds for one key. */
  lemma ChangesAt(oldDict: map<string, Feature>, newDict: map<string, Feature>,
                  oldFields: seq<string>, newFields: seq<string>, k: string)
    requires |oldFields| == |newFields|
    ensures k in Changes(oldDict, newDict, oldFields, newFields) <==> Retained(oldDict, newDict, oldFields, newFields, k)
    ensures k in Changes(oldDict, newDict, oldFields, newFields) ==>
            Changes(oldDict, newDict, oldFields, newFields)[k] == RowOf(oldDict, newDict, oldFields, newFields, k)
  {
  }

  /** A map with a row for exactly the retained keys, each the key's row, is the changeset. */
  lemma ChangesFrom(oldDict: map<string, Feature>, newDict: map<string, Feature>,
                    oldFields: seq<string>, newFields: seq<string>, data: map<string, Row>)
    requires |oldFields| == |newFields|
    requires forall k :: k in data <==> Retained(oldDict, newDict, oldFields, newFields, k)
    requires forall k :: k in data ==> (k in oldDict || k in newDict) && data[k] == RowOf(oldDict, newDict, oldFields, newFields, k)
    ensures data == Changes(oldDict, newDict, oldFields, newFields)
  {
    var c := Changes(oldDict, newDict, oldFields, newFields);
    forall k ensures k in c <==> k in data {
      ChangesAt(oldDict, newDict, oldFields, newFields, k);
    }
    forall k | k in c ensures c[k] == data[k] {
      ChangesAt(oldDict, newDict, oldFields, newFields, k);
    }
    assert c.Keys == data.Keys;
  }

  /** The state of the first loop after the keys `newOrder[..j]`, collected
      in `seen`: `data` holds those of them that the target `c` holds, with
      the target's rows, and `order` lists the keys of `data` in the order
      they entered. */
  ghost predicate FilledUpTo(c: map<string, Row>, newOrder: seq<string>,
                             j: int, seen: set<string>, data: map<string, Row>, order: seq<string>)
  {
    && (forall k :: k in data <==> k in seen && k in c)
    && (forall k :: k in data ==> data[k] == c[k])
    && (forall i :: 0 <= i < |newOrder| ==> (newOrder[i] in seen <==> i < j))
    && (forall k :: k in seen ==> k in newOrder)
    && Enumerates(order, data.Keys)
  }

  /** A key visited next that the target does not hold leaves `data` as it is. */
  lemma FilledSkip(c: map<string, Row>, newOrder: seq<string>,
                   j: int, seen: set<string>, data: map<string, Row>, order: seq<string>)
    requires Distinct(newOrder) && 0 <= j < |newOrder| && FilledUpTo(c, newOrder, j, seen, data, order)
    requires newOrder[j] !in c
    ensures FilledUpTo(c, newOrder, j + 1, seen + {newOrder[j]}, data, order)
  {
    var key := newOrder[j];
    forall i | 0 <= i < |newOrder| ensures newOrder[i] in seen + {key} <==> i < j + 1 {
      if i != j {
        assert newOrder[i] != key;
      }
    }
  }

  /** A key of the target visited next enters `data` with its row, at the end of `order`. */
  lemma FilledAdd(c: map<string, Row>, newOrder: seq<string>,
                  j: int, seen: set<string>, data: map<string, Row>, order: seq<string>)
    requires Distinct(newOrder) && 0 <= j < |newOrder| && FilledUpTo(c, newOrder, j, seen, data, order)
    requires newOrder[j] in c
    ensures FilledUpTo(c, newOrder, j + 1, seen + {newOrder[j]}, data[newOrder[j] := c[newOrder[j]]],
                       order + [newOrder[j]])
  {
    var key := newOrder[j];
    assert key !in seen;
    assert key !in data && key !in order;
    forall i | 0 <= i < |newOrder| ensures newOrder[i] in seen + {key} <==> i < j + 1 {
      if i != j {
        assert newOrder[i] != key;
      }
    }
    var order' := order + [key];
    assert Distinct(order') by {
      forall x, y | 0 <= x < y < |order'| ensures order'[x] != order'[y] {
        if y == |order| {
          assert order'[x] == order[x] && order[x] in order;
        } else {
          assert order'[x] == order[x] && order'[y] == order[y];
        }
      }
    }
  }

  /** The first loop of the engine: over the new layer's features, adding
      a row for each added key and for each changed key with a difference.
      `order` is the order in which keys entered `data`. */
  method AddNewFeatures(oldDict: map<string, Feature>, newDict: map<string, Feature>,
                        oldFields: seq<string>, newFields: seq<string>, newOrder: seq<string>)
    returns (data: map<string, Row>, order: seq<string>)
    requires |oldFields| == |newFields|
    requires Enumerates(newOrder, newDict.Keys)
    ensures forall k :: k in data <==> k in newDict && Retained(oldDict, newDict, oldFields, newFields, k)
    ensures forall k :: k in data ==> data[k] == RowOf(oldDict, newDict, oldFields, newFields, k)
    ensures Enumerates(order, data.Keys)
  {
    ghost var c := Changes(oldDict, newDict, oldFields, newFields);
    ghost var seen: set<string> := {};
    data, order := map[], [];
    for j := 0 to |newOrder|
      invariant FilledUpTo(c, newOrder, j, seen, data, order)
    {
      var key := newOrder[j];
      var val := newDict[key];
      ChangesAt(oldDict, newDict, oldFields, newFields, key);
      if key in oldDict {
        var what := CollectChanges(oldDict[key], val, oldFields, newFields);
        if what != [] {
          var row := BuildChangedRow(key, ChangeLabel(what), oldDict[key], val, oldFields, newFields);
          assert row == c[key];
          FilledAdd(c, newOrder, j, seen, data, order);
          data := data[key := row];
          order := order + [key];
        } else {
          FilledSkip(c, newOrder, j, seen, data, order);
        }
      } else {
        var row := BuildAddedRow(key, val, newFields);
        assert row == c[key];
        FilledAdd(c, newOrder, j, seen, data, order);
        data := data[key := row];
        order := order + [key];
      }
      seen := seen + {key};
    }
    forall k ensures (k in data <==> k in newDict && Retained(oldDict, newDict, oldFields, newFields, k))
      && (k in data ==> data[k] == RowOf(oldDict, newDict, oldFields, newFields, k))
    {
      ChangesAt(oldDict, newDict, oldFields, newFields, k);
      assert k in newDict <==> k in seen;
    }
  }

  /** The second loop of the engine: a Removed row for every removed key. */
  method AddRemoved(oldDict: map<string, Feature>, newDict: map<string, Feature>,
                    oldFields: seq<string>, removedOrder: seq<string>,
                    data0: map<string, Row>, order0: seq<string>)
    returns (data: map<string, Row>, order: seq<string>)
    requires Enumerates(removedOrder, Partition(oldDict.Keys, newDict.Keys).removed)
    requires data0.Keys <= newDict.Keys && Enumerates(order0, data0.Keys)
    ensures data.Keys == data0.Keys + Partition(oldDict.Keys, newDict.Keys).removed
    ensures forall k :: k in data0 ==> data[k] == data0[k]
    ensures forall k :: k in data && k !in data0 ==> data[k] == RemovedRow(k, oldDict[k], oldFields)
    ensures Enumerates(order, data.Keys)
  {
    ghost var seen: set<string> := {};
    data, order := data0, order0;
    for j := 0 to |removedOrder|
      invariant data.Keys == data0.Keys + seen
      invariant forall k :: k in data0 ==> data[k] == data0[k]
      invariant forall k :: k in data && k !in data0 ==> k in oldDict && data[k] == RemovedRow(k, oldDict[k], oldFields)
      invariant forall i :: 0 <= i < |removedOrder| ==> (removedOrder[i] in seen <==> i < j)
      invariant seen <= oldDict.Keys - newDict.Keys
      invariant Enumerates(order, data.Keys)
    {
      var key := removedOrder[j];
      var row := BuildRemovedRow(key, oldDict[key], oldFields);
      data := data[key := row];
      order := order + [key];
      seen := seen + {key};
    }
    assert seen == oldDict.Keys - newDict.Keys;
  }

  /** Both loops together fill `data` with exactly the changeset. */
  method BuildData(oldDict: map<string, Feature>, newDict: map<string, Feature>,
                   oldFields: seq<string>, newFields: seq<string>,
                   newOrder: seq<string>, removedOrder: seq<string>)
    returns (data: map<string, Row>, order: seq<string>)
    requires |oldFields| == |newFields|
    requires Enumerates(newOrder, newDict.Keys)
    requires Enumerates(removedOrder, Partition(oldDict.Keys, newDict.Keys).removed)
    ensures data == Changes(oldDict, newDict, oldFields, newFields)
    ensures Enumerates(order, data.Keys)
  {
    var data0, order0 := AddNewFeatures(oldDict, newDict, oldFields, newFields, newOrder);
    data, order := AddRemoved(oldDict, newDict, oldFields, removedOrder, data0, order0);
    forall k ensures k in data <==> Retained(oldDict, newDict, oldFields, newFields, k) {
    }
    forall k | k in data ensures data[k] == RowOf(oldDict, newDict, oldFields, newFields, k) {
    }
    ChangesFrom(oldDict, newDict, oldFields, newFields, data);
  }
}
