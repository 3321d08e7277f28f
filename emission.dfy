/** The geospatial output, abstracted from the sink: which feature is
    written, under which ID, from which side. IDs come in three bands:
    removed keys first, then added keys, then the changed keys that made it
    into the changeset. */
module Emission {
  import opened Values
  import opened KeyOrder

  /** Which layer the written geometry comes from (`GeometrySource`). */
  datatype Side = Old | New

  /** One written feature: its ID, its key and the layer its geometry comes from. */
  datatype Emitted = Emitted(id: int, key: string, side: Side)

  /** Removed keys, each under its position, from the old layer. */
  function RemovedBand(removed: seq<string>): seq<Emitted>
  {
    seq(|removed|, j requires 0 <= j < |removed| => Emitted(j, removed[j], Old))
  }

  /** Added keys, each under `base` plus its position, from the new layer. */
  function AddedBand(added: seq<string>, base: int): seq<Emitted>
  {
    seq(|added|, j requires 0 <= j < |added| => Emitted(base + j, added[j], New))
  }

  /** The program's test `data.get(idpk)[-1] != data.get(idpk)[-2]`. */
  predicate LastTwoDiffer(row: Row)
    requires |row| >= 2
  {
    row[|row| - 1] != row[|row| - 2]
  }

  /** Rows long enough for the test above. */
  ghost predicate RowsHaveAreas(data: map<string, Row>)
  {
    forall k :: k in data ==> |data[k]| >= 2
  }

  /** Changed keys with the counter at `i`: the counter goes up before the
      New feature, and once more before the Old one, which is written only
      when the last two row entries differ. */
  function ChangedBand(keys: seq<string>, i: int, data: map<string, Row>): seq<Emitted>
    requires forall k :: k in keys ==> k in data
    requires RowsHaveAreas(data)
  {
    if keys == [] then []
    else if LastTwoDiffer(data[keys[0]]) then
      [Emitted(i + 1, keys[0], New), Emitted(i + 2, keys[0], Old)] + ChangedBand(keys[1..], i + 2, data)
    else
      [Emitted(i + 1, keys[0], New)] + ChangedBand(keys[1..], i + 1, data)
  }

  /** `[c for c in changed_idpk if c in data.keys()]`. */
  function Kept(changed: seq<string>, data: map<string, Row>): (r: seq<string>)
    ensures forall k :: k in r <==> k in changed && k in data
  {
    if changed == [] then []
    else (if changed[0] in data then [changed[0]] else []) + Kept(changed[1..], data)
  }

  lemma {:induction false} KeptDistinct(changed: seq<string>, data: map<string, Row>)
    requires Distinct(changed)
    ensures Distinct(Kept(changed, data))
  {
    if changed != [] {
      KeptDistinct(changed[1..], data);
      assert changed[0] !in changed[1..];
      assert changed[0] !in Kept(changed[1..], data);
    }
  }

  /** Everything written, in the order it is written. */
  function Plan(removed: seq<string>, added: seq<string>, changed: seq<string>, data: map<string, Row>): seq<Emitted>
    requires RowsHaveAreas(data)
  {
    RemovedBand(removed) + AddedBand(added, |removed|)
      + ChangedBand(Kept(changed, data), |removed| + |added|, data)
  }

  lemma RemovedBandSnoc(removed: seq<string>, j: nat)
    requires j < |removed|
    ensures RemovedBand(removed[..j + 1]) == RemovedBand(removed[..j]) + [Emitted(j, removed[j], Old)]
  {
  }

  lemma AddedBandSnoc(added: seq<string>, base: int, j: nat)
    requires j < |added|
    ensures AddedBand(added[..j + 1], base) == AddedBand(added[..j], base) + [Emitted(base + j, added[j], New)]
  {
  }

  /** One step of the changed band: the first key's features, then the rest. */
  lemma ChangedBandCons(keys: seq<string>, i: int, data: map<string, Row>)
    requires keys != [] && (forall k :: k in keys ==> k in data)
    requires RowsHaveAreas(data)
    ensures var step := if LastTwoDiffer(data[keys[0]]) then 2 else 1;
            ChangedBand(keys, i, data)
              == [Emitted(i + 1, keys[0], New)]
                 + (if step == 2 then [Emitted(i + 2, keys[0], Old)] else [])
                 + ChangedBand(keys[1..], i + step, data)
  {
  }

  /** The loop over the removed keys: ID `current`, side Old. */
  method EmitRemoved(removed: seq<string>) returns (plan: seq<Emitted>)
    ensures plan == RemovedBand(removed)
  {
    plan := [];
    for current := 0 to |removed|
      invariant plan == RemovedBand(removed[..current])
    {
      RemovedBandSnoc(removed, current);
      plan := plan + [Emitted(current, removed[current], Old)];
    }
    assert removed[..|removed|] == removed;
  }

  /** The loop over the added keys: ID `len(removed_idpk) + current`, side New. */
  method EmitAdded(added: seq<string>, base: int) returns (plan: seq<Emitted>)
    ensures plan == AddedBand(added, base)
  {
    plan := [];
    for current := 0 to |added|
      invariant plan == AddedBand(added[..current], base)
    {
      AddedBandSnoc(added, base, current);
      plan := plan + [Emitted(base + current, added[current], New)];
    }
    assert added[..|added|] == added;
  }

  /** What the changed loop writes for one key with the counter at `i`. */
  function Piece(k: string, i: int, data: map<string, Row>): seq<Emitted>
    requires k in data && RowsHaveAreas(data)
  {
    if LastTwoDiffer(data[k]) then [Emitted(i + 1, k, New), Emitted(i + 2, k, Old)] else [Emitted(i + 1, k, New)]
  }

  /** The step of the changed loop at position `current`. */
  lemma ChangedBandStep(kept: seq<string>, current: nat, i: int, data: map<string, Row>)
    requires current < |kept| && (forall k :: k in kept ==> k in data)
    requires RowsHaveAreas(data)
    ensures var p := Piece(kept[current], i, data);
            ChangedBand(kept[current..], i, data) == p + ChangedBand(kept[current + 1..], i + |p|, data)
  {
    assert kept[current..][1..] == kept[current + 1..];
    assert kept[current..][0] == kept[current];
  }

  lemma Regroup(plan: seq<Emitted>, piece: seq<Emitted>, tail: seq<Emitted>)
    ensures (plan + piece) + tail == plan + (piece + tail)
  {
  }

  /** The loop over the kept changed keys, with the counter `i` starting at `base`. */
  method EmitChanged(kept: seq<string>, base: int, data: map<string, Row>) returns (plan: seq<Emitted>)
    requires forall k :: k in kept ==> k in data
    requires RowsHaveAreas(data)
    ensures plan == ChangedBand(kept, base, data)
  {
    plan := [];
    var i := base;
    for current := 0 to |kept|
      invariant plan + ChangedBand(kept[current..], i, data) == ChangedBand(kept, base, data)
    {
      ghost var plan0, i0 := plan, i;
      var idpk := kept[current];
      ghost var piece := Piece(idpk, i0, data);
      ChangedBandStep(kept, current, i0, data);
      var row := data[idpk];
      i := i + 1;
      plan := plan + [Emitted(i, idpk, New)];
      if row[|row| - 1] != row[|row| - 2] {
        i := i + 1;
        plan := plan + [Emitted(i, idpk, Old)];
      }
      assert plan == plan0 + piece && i == i0 + |piece|;
      Regroup(plan0, piece, ChangedBand(kept[current + 1..], i, data));
    }
    assert plan + [] == plan;
  }

  /** The three emission loops of the engine, in order. */
  method EmissionPlan(removed: seq<string>, added: seq<string>, changed: seq<string>, data: map<string, Row>)
    returns (plan: seq<Emitted>)
    requires RowsHaveAreas(data)
    ensures plan == Plan(removed, added, changed, data)
  {
    var first := EmitRemoved(removed);
    var second := EmitAdded(added, |removed|);
    var kept := Kept(changed, data);
    var third := EmitChanged(kept, |removed| + |added|, data);
    plan := first + second + third;
  }

  /** The changed band's IDs are exactly i + 1, i + 2, ... in position
      order, with no gaps, and the band is non-empty when there are keys. */
  lemma {:induction false} ChangedBandIds(keys: seq<string>, i: int, data: map<string, Row>)
    requires forall k :: k in keys ==> k in data
    requires RowsHaveAreas(data)
    ensures var b := ChangedBand(keys, i, data);
            && (forall a :: 0 <= a < |b| ==> b[a].id == i + 1 + a)
            && (|keys| > 0 ==> |b| > 0)
  {
    if keys != [] {
      var step := if LastTwoDiffer(data[keys[0]]) then 2 else 1;
      ChangedBandCons(keys, i, data);
      ChangedBandIds(keys[1..], i + step, data);
      var rest := ChangedBand(keys[1..], i + step, data);
      var head := [Emitted(i + 1, keys[0], New)] + (if step == 2 then [Emitted(i + 2, keys[0], Old)] else []);
      var b := ChangedBand(keys, i, data);
      assert b == head + rest && |head| == step;
      forall a | 0 <= a < |b| ensures b[a].id == i + 1 + a {
        if a >= step {
          assert b[a] == rest[a - step];
        }
      }
    }
  }

  /** The changed band writes only the keys it is given. */
  lemma {:induction false} ChangedBandKeys(keys: seq<string>, i: int, data: map<string, Row>)
    requires forall k :: k in keys ==> k in data
    requires RowsHaveAreas(data)
    ensures forall e :: e in ChangedBand(keys, i, data) ==> e.key in keys
  {
    if keys != [] {
      var step := if LastTwoDiffer(data[keys[0]]) then 2 else 1;
      ChangedBandKeys(keys[1..], i + step, data);
    }
  }

  /** Every changed key writes its New feature, and an Old one exactly when
      its last two row entries differ. */
  lemma {:induction false} ChangedBandSides(keys: seq<string>, i: int, data: map<string, Row>)
    requires forall k :: k in keys ==> k in data
    requires RowsHaveAreas(data)
    ensures forall k :: k in keys ==> Emitted(0, k, New) in Untagged(ChangedBand(keys, i, data))
    ensures forall k :: k in keys ==>
              (Emitted(0, k, Old) in Untagged(ChangedBand(keys, i, data)) <==> LastTwoDiffer(data[k]))
  {
    if keys != [] {
      var k0 := keys[0];
      var step := if LastTwoDiffer(data[k0]) then 2 else 1;
      ChangedBandCons(keys, i, data);
      ChangedBandSides(keys[1..], i + step, data);
      ChangedBandKeys(keys[1..], i + step, data);
      var rest := ChangedBand(keys[1..], i + step, data);
      var head := [Emitted(i + 1, k0, New)] + (if step == 2 then [Emitted(i + 2, k0, Old)] else []);
      var b := ChangedBand(keys, i, data);
      assert b == head + rest;
      UntaggedAppend(head, rest);
      var uh, ur := Untagged(head), Untagged(rest);
      assert uh == [Emitted(0, k0, New)] + (if step == 2 then [Emitted(0, k0, Old)] else []);
      assert Untagged(b) == uh + ur;
      forall k | k in keys
        ensures Emitted(0, k, New) in Untagged(b)
        ensures Emitted(0, k, Old) in Untagged(b) <==> LastTwoDiffer(data[k])
      {
        assert Emitted(0, k, Old) in uh <==> k == k0 && step == 2;
        if k !in keys[1..] {
          assert k == k0;
          ChangedBandOnly(keys[1..], i + step, data, k, Old);
        }
      }
    }
  }

  lemma UntaggedAppend(a: seq<Emitted>, b: seq<Emitted>)
    ensures Untagged(a + b) == Untagged(a) + Untagged(b)
  {
  }

  ghost predicate OldFollowsNew(b: seq<Emitted>)
  {
    forall a :: 0 <= a < |b| && b[a].side == Old ==>
      a > 0 && b[a - 1] == Emitted(b[a].id - 1, b[a].key, New)
  }

  /** At position `a`: a New feature is followed by an Old one exactly when
      its row's last two entries differ. */
  ghost predicate OldIffAt(b: seq<Emitted>, data: map<string, Row>, a: int)
    requires RowsHaveAreas(data) && 0 <= a < |b|
  {
    b[a].side == New ==>
      b[a].key in data && (a + 1 < |b| && b[a + 1].side == Old) == LastTwoDiffer(data[b[a].key])
  }

  ghost predicate OldIffLastTwoDiffer(b: seq<Emitted>, data: map<string, Row>)
    requires RowsHaveAreas(data)
  {
    forall a :: 0 <= a < |b| ==> OldIffAt(b, data, a)
  }

  /** An Old feature always comes right after the New feature of the same
      key, under the next ID. */
  lemma {:induction false} ChangedBandOldAfterNew(keys: seq<string>, i: int, data: map<string, Row>)
    requires forall k :: k in keys ==> k in data
    requires RowsHaveAreas(data)
    ensures OldFollowsNew(ChangedBand(keys, i, data))
    ensures |ChangedBand(keys, i, data)| > 0 ==> ChangedBand(keys, i, data)[0].side == New
  {
    if keys != [] {
      var k0 := keys[0];
      var step := if LastTwoDiffer(data[k0]) then 2 else 1;
      ChangedBandCons(keys, i, data);
      ChangedBandOldAfterNew(keys[1..], i + step, data);
      var rest := ChangedBand(keys[1..], i + step, data);
      var head := [Emitted(i + 1, k0, New)] + (if step == 2 then [Emitted(i + 2, k0, Old)] else []);
      var b := ChangedBand(keys, i, data);
      assert b == head + rest;
      assert |rest| > 0 ==> b[|head|] == rest[0];
      forall a | 0 <= a < |b| && b[a].side == Old
        ensures a > 0 && b[a - 1] == Emitted(b[a].id - 1, b[a].key, New)
      {
        if a > |head| {
          assert b[a] == rest[a - |head|] && b[a - 1] == rest[a - 1 - |head|];
        }
      }
    }
  }

  lemma JoinSingleAt(k: string, id: int, rest: seq<Emitted>, data: map<string, Row>, a: int)
    requires RowsHaveAreas(data) && k in data && !LastTwoDiffer(data[k])
    requires OldIffLastTwoDiffer(rest, data)
    requires |rest| > 0 ==> rest[0].side == New
    requires 0 <= a <= |rest|
    ensures OldIffAt([Emitted(id, k, New)] + rest, data, a)
  {
    var b := [Emitted(id, k, New)] + rest;
    if a == 0 {
      assert b[0] == Emitted(id, k, New);
      if |rest| > 0 {
        assert b[1] == rest[0];
      }
    } else {
      assert OldIffAt(rest, data, a - 1);
      assert b[a] == rest[a - 1];
      if a + 1 < |b| {
        assert b[a + 1] == rest[a];
      }
    }
  }

  /** A key written once in front of a band keeps the New/Old pattern. */
  lemma JoinSingle(k: string, id: int, rest: seq<Emitted>, data: map<string, Row>)
    requires RowsHaveAreas(data) && k in data && !LastTwoDiffer(data[k])
    requires OldIffLastTwoDiffer(rest, data)
    requires |rest| > 0 ==> rest[0].side == New
    ensures OldIffLastTwoDiffer([Emitted(id, k, New)] + rest, data)
  {
    var b := [Emitted(id, k, New)] + rest;
    forall a | 0 <= a < |b| ensures OldIffAt(b, data, a) {
      JoinSingleAt(k, id, rest, data, a);
    }
  }

  lemma JoinPairAt(k: string, id: int, rest: seq<Emitted>, data: map<string, Row>, a: int)
    requires RowsHaveAreas(data) && k in data && LastTwoDiffer(data[k])
    requires OldIffLastTwoDiffer(rest, data)
    requires 0 <= a < |rest| + 2
    ensures OldIffAt([Emitted(id, k, New), Emitted(id + 1, k, Old)] + rest, data, a)
  {
    var b := [Emitted(id, k, New), Emitted(id + 1, k, Old)] + rest;
    if a == 0 {
      assert b[0] == Emitted(id, k, New) && b[1] == Emitted(id + 1, k, Old);
    } else if a == 1 {
      assert b[1].side == Old;
    } else {
      assert OldIffAt(rest, data, a - 2);
      assert b[a] == rest[a - 2];
      if a + 1 < |b| {
        assert b[a + 1] == rest[a - 1];
      }
    }
  }

  /** A key written twice, New then Old, in front of a band keeps the pattern. */
  lemma JoinPair(k: string, id: int, rest: seq<Emitted>, data: map<string, Row>)
    requires RowsHaveAreas(data) && k in data && LastTwoDiffer(data[k])
    requires OldIffLastTwoDiffer(rest, data)
    ensures OldIffLastTwoDiffer([Emitted(id, k, New), Emitted(id + 1, k, Old)] + rest, data)
  {
    var b := [Emitted(id, k, New), Emitted(id + 1, k, Old)] + rest;
    forall a | 0 <= a < |b| ensures OldIffAt(b, data, a) {
      JoinPairAt(k, id, rest, data, a);
    }
  }

  /** A New feature is followed by an Old one exactly when its row's last
      two entries differ. */
  lemma {:induction false} ChangedBandNewThenOld(keys: seq<string>, i: int, data: map<string, Row>)
    requires forall k :: k in keys ==> k in data
    requires RowsHaveAreas(data)
    ensures OldIffLastTwoDiffer(ChangedBand(keys, i, data), data)
  {
    if keys != [] {
      var k0 := keys[0];
      if LastTwoDiffer(data[k0]) {
        assert ChangedBand(keys, i, data)
          == [Emitted(i + 1, k0, New), Emitted(i + 2, k0, Old)] + ChangedBand(keys[1..], i + 2, data);
        ChangedBandNewThenOld(keys[1..], i + 2, data);
        JoinPair(k0, i + 1, ChangedBand(keys[1..], i + 2, data), data);
      } else {
        assert ChangedBand(keys, i, data) == [Emitted(i + 1, k0, New)] + ChangedBand(keys[1..], i + 1, data);
        ChangedBandNewThenOld(keys[1..], i + 1, data);
        ChangedBandOldAfterNew(keys[1..], i + 1, data);
        JoinSingle(k0, i + 1, ChangedBand(keys[1..], i + 1, data), data);
      }
    }
  }

  /** How many of `keys` have rows whose last two entries differ. */
  function TwoFeatureCount(keys: seq<string>, data: map<string, Row>): nat
    requires forall k :: k in keys ==> k in data
    requires RowsHaveAreas(data)
  {
    if keys == [] then 0
    else (if LastTwoDiffer(data[keys[0]]) then 1 else 0) + TwoFeatureCount(keys[1..], data)
  }

  /** Each changed key writes one feature, or two when its last two row entries differ. */
  lemma {:induction false} ChangedBandLength(keys: seq<string>, i: int, data: map<string, Row>)
    requires forall k :: k in keys ==> k in data
    requires RowsHaveAreas(data)
    ensures |ChangedBand(keys, i, data)| == |keys| + TwoFeatureCount(keys, data)
    ensures TwoFeatureCount(keys, data) <= |keys|
  {
    if keys != [] {
      var step := if LastTwoDiffer(data[keys[0]]) then 2 else 1;
      ChangedBandLength(keys[1..], i + step, data);
    }
  }

  /** Positions of the first two bands in a concatenation of three. */
  lemma FrontAt(x: seq<Emitted>, y: seq<Emitted>, z: seq<Emitted>)
    ensures |x + y + z| == |x| + |y| + |z|
    ensures forall j :: 0 <= j < |x| ==> (x + y + z)[j] == x[j]
    ensures forall j :: 0 <= j < |y| ==> (x + y + z)[|x| + j] == y[j]
  {
  }

  /** Positions of the third band in a concatenation of three. */
  lemma BackAt(x: seq<Emitted>, y: seq<Emitted>, z: seq<Emitted>)
    ensures |x + y + z| == |x| + |y| + |z|
    ensures forall j :: |x| + |y| <= j < |x| + |y| + |z| ==> (x + y + z)[j] == z[j - |x| - |y|]
  {
  }

  /** The first two bands: removed keys under their positions from the old
      layer, then added keys under R plus their positions from the new layer. */
  lemma PlanFront(removed: seq<string>, added: seq<string>, changed: seq<string>, data: map<string, Row>)
    requires RowsHaveAreas(data)
    ensures var p := Plan(removed, added, changed, data);
            && |p| >= |removed| + |added|
            && (forall j :: 0 <= j < |removed| ==> p[j] == Emitted(j, removed[j], Old))
            && (forall j :: 0 <= j < |added| ==> p[|removed| + j] == Emitted(|removed| + j, added[j], New))
  {
    var rb, ab := RemovedBand(removed), AddedBand(added, |removed|);
    FrontAt(rb, ab, ChangedBand(Kept(changed, data), |removed| + |added|, data));
  }

  /** One position of the changed band of the kept keys. */
  lemma KeptBandAt(changed: seq<string>, base: int, data: map<string, Row>, a: int)
    requires RowsHaveAreas(data)
    requires 0 <= a < |ChangedBand(Kept(changed, data), base, data)|
    ensures var e := ChangedBand(Kept(changed, data), base, data)[a];
            e.id == base + 1 + a && e.key in changed && e.key in data
  {
    var c := ChangedBand(Kept(changed, data), base, data);
    ChangedBandIds(Kept(changed, data), base, data);
    ChangedBandKeys(Kept(changed, data), base, data);
    assert c[a] in c;
  }

  /** The third band: kept changed keys, each ID one above its position, so
      the band starts at R+A+1. */
  lemma PlanBack(removed: seq<string>, added: seq<string>, changed: seq<string>, data: map<string, Row>)
    requires RowsHaveAreas(data)
    ensures var p := Plan(removed, added, changed, data);
            var base := |removed| + |added|;
            && |p| == base + |Kept(changed, data)| + TwoFeatureCount(Kept(changed, data), data)
            && (forall j :: base <= j < |p| ==> p[j].id == j + 1 && p[j].key in changed && p[j].key in data)
  {
    var kept := Kept(changed, data);
    var base := |removed| + |added|;
    ChangedBandLength(kept, base, data);
    var c := ChangedBand(kept, base, data);
    var rb, ab := RemovedBand(removed), AddedBand(added, |removed|);
    BackAt(rb, ab, c);
    var p := Plan(removed, added, changed, data);
    assert p == rb + ab + c;
    forall j | base <= j < |p| ensures p[j].id == j + 1 && p[j].key in changed && p[j].key in data {
      assert p[j] == c[j - base];
      KeptBandAt(changed, base, data, j - base);
    }
  }

  /** The ID plan: removed keys get 0 .. R-1 from the old layer, added keys
      R .. R+A-1 from the new layer, and the kept changed keys the IDs from
      R+A+1 on, one above their position; ID R+A itself is never written. */
  lemma PlanBands(removed: seq<string>, added: seq<string>, changed: seq<string>, data: map<string, Row>)
    requires RowsHaveAreas(data)
    ensures var p := Plan(removed, added, changed, data);
            var r, n := |removed|, |added|;
            && |p| == r + n + |Kept(changed, data)| + TwoFeatureCount(Kept(changed, data), data)
            && (forall j :: 0 <= j < r ==> p[j] == Emitted(j, removed[j], Old))
            && (forall j :: 0 <= j < n ==> p[r + j] == Emitted(r + j, added[j], New))
            && (forall j :: r + n <= j < |p| ==> p[j].key in changed && p[j].key in data)
            && (forall j :: 0 <= j < |p| ==> p[j].id == (if j < r + n then j else j + 1))
            && (forall j :: 0 <= j < |p| ==> p[j].id != r + n)
  {
    PlanFront(removed, added, changed, data);
    PlanBack(removed, added, changed, data);
    var p := Plan(removed, added, changed, data);
    var r, n := |removed|, |added|;
    forall j | 0 <= j < |p| ensures p[j].id == (if j < r + n then j else j + 1) {
      if j < r {
        assert p[j].id == j;
      } else if j < r + n {
        assert p[r + (j - r)].id == r + (j - r);
      }
    }
  }

  /** IDs strictly increase along the plan, so no two written features share one. */
  lemma PlanIdsIncrease(removed: seq<string>, added: seq<string>, changed: seq<string>, data: map<string, Row>)
    requires RowsHaveAreas(data)
    ensures var p := Plan(removed, added, changed, data);
            forall a, b :: 0 <= a < b < |p| ==> p[a].id < p[b].id
  {
    var kept := Kept(changed, data);
    var r, n := |removed|, |added|;
    ChangedBandIds(kept, r + n, data);
    var p := Plan(removed, added, changed, data);
    var c := ChangedBand(kept, r + n, data);
    assert p == RemovedBand(removed) + AddedBand(added, r) + c;
    forall a, b | 0 <= a < b < |p| ensures p[a].id < p[b].id {
      if a >= r + n {
        assert p[a] == c[a - r - n] && p[b] == c[b - r - n];
      } else if b >= r + n {
        assert p[b] == c[b - r - n];
        assert p[a].id < r + n;
      }
    }
  }

  lemma RemovedBandOnly(removed: seq<string>, k: string, s: Side)
    requires k !in removed
    ensures Emitted(0, k, s) !in Untagged(RemovedBand(removed))
  {
    assert forall j :: 0 <= j < |removed| ==> Untagged(RemovedBand(removed))[j].key == removed[j];
  }

  lemma AddedBandOnly(added: seq<string>, base: int, k: string, s: Side)
    requires k !in added
    ensures Emitted(0, k, s) !in Untagged(AddedBand(added, base))
  {
    assert forall j :: 0 <= j < |added| ==> Untagged(AddedBand(added, base))[j].key == added[j];
  }

  lemma ChangedBandOnly(keys: seq<string>, i: int, data: map<string, Row>, k: string, s: Side)
    requires forall k :: k in keys ==> k in data
    requires RowsHaveAreas(data)
    requires k !in keys
    ensures Emitted(0, k, s) !in Untagged(ChangedBand(keys, i, data))
  {
    var cb := ChangedBand(keys, i, data);
    ChangedBandKeys(keys, i, data);
    assert forall j :: 0 <= j < |cb| ==> Untagged(cb)[j].key == cb[j].key && cb[j] in cb;
  }

  /** Counts in a band split in two add up. */
  lemma CountsAppend(x: seq<Emitted>, y: seq<Emitted>, e: Emitted)
    ensures multiset(Untagged(x + y))[e] == multiset(Untagged(x))[e] + multiset(Untagged(y))[e]
  {
    UntaggedAppend(x, y);
  }

  lemma DistinctTail(keys: seq<string>)
    requires keys != [] && Distinct(keys)
    ensures Distinct(keys[1..]) && keys[0] !in keys[1..]
  {
    var tail := keys[1..];
    forall x, y | 0 <= x < y < |tail| ensures tail[x] != tail[y] {
      assert tail[x] == keys[x + 1] && tail[y] == keys[y + 1];
    }
    forall y | 0 <= y < |tail| ensures tail[y] != keys[0] {
      assert tail[y] == keys[y + 1];
    }
  }

  /** What the first changed key writes, with its IDs dropped. */
  lemma HeadCounts(k0: string, i: int, two: bool, k: string)
    ensures var head := if two then [Emitted(i + 1, k0, New), Emitted(i + 2, k0, Old)] else [Emitted(i + 1, k0, New)];
            && multiset(Untagged(head))[Emitted(0, k, New)] == (if k == k0 then 1 else 0)
            && multiset(Untagged(head))[Emitted(0, k, Old)] == (if k == k0 && two then 1 else 0)
  {
    var head := if two then [Emitted(i + 1, k0, New), Emitted(i + 2, k0, Old)] else [Emitted(i + 1, k0, New)];
    if two {
      assert Untagged(head) == [Emitted(0, k0, New), Emitted(0, k0, Old)];
    } else {
      assert Untagged(head) == [Emitted(0, k0, New)];
    }
  }

  /** Over distinct keys, each key is written from the new layer exactly
      once, and from the old layer once when its last two row entries differ
      and never otherwise. */
  lemma {:induction false} ChangedBandCounts(keys: seq<string>, i: int, data: map<string, Row>, k: string)
    requires forall k :: k in keys ==> k in data
    requires RowsHaveAreas(data) && Distinct(keys)
    ensures multiset(Untagged(ChangedBand(keys, i, data)))[Emitted(0, k, New)] == (if k in keys then 1 else 0)
    ensures multiset(Untagged(ChangedBand(keys, i, data)))[Emitted(0, k, Old)]
              == (if k in keys && LastTwoDiffer(data[k]) then 1 else 0)
  {
    if keys != [] {
      var k0, tail := keys[0], keys[1..];
      var two := LastTwoDiffer(data[k0]);
      var step := if two then 2 else 1;
      DistinctTail(keys);
      ChangedBandCounts(tail, i + step, data, k);
      var rest := ChangedBand(tail, i + step, data);
      var head := if two then [Emitted(i + 1, k0, New), Emitted(i + 2, k0, Old)] else [Emitted(i + 1, k0, New)];
      assert ChangedBand(keys, i, data) == head + rest;
      CountsAppend(head, rest, Emitted(0, k, New));
      CountsAppend(head, rest, Emitted(0, k, Old));
      HeadCounts(k0, i, two, k);
      assert k in keys <==> k == k0 || k in tail;
    }
  }

  /** Over distinct changed keys, a key neither removed nor added is written
      from the new layer once when it is a changed key with a row and never
      otherwise, and from the old layer once when in addition its last two
      row entries differ and never otherwise. */
  lemma PlanCounts(removed: seq<string>, added: seq<string>, changed: seq<string>, data: map<string, Row>, k: string)
    requires RowsHaveAreas(data) && Distinct(changed)
    requires k !in removed && k !in added
    ensures multiset(Untagged(Plan(removed, added, changed, data)))[Emitted(0, k, New)]
              == (if k in changed && k in data then 1 else 0)
    ensures multiset(Untagged(Plan(removed, added, changed, data)))[Emitted(0, k, Old)]
              == (if k in changed && k in data && LastTwoDiffer(data[k]) then 1 else 0)
  {
    var kept := Kept(changed, data);
    KeptDistinct(changed, data);
    var front := RemovedBand(removed) + AddedBand(added, |removed|);
    var cb := ChangedBand(kept, |removed| + |added|, data);
    assert Plan(removed, added, changed, data) == front + cb;
    FrontCountsZero(removed, added, k, New);
    FrontCountsZero(removed, added, k, Old);
    ChangedBandCounts(kept, |removed| + |added|, data, k);
    CountsAppend(front, cb, Emitted(0, k, New));
    CountsAppend(front, cb, Emitted(0, k, Old));
  }

  /** The removed and added bands never write a key that is in neither list. */
  lemma FrontCountsZero(removed: seq<string>, added: seq<string>, k: string, s: Side)
    requires k !in removed && k !in added
    ensures multiset(Untagged(RemovedBand(removed) + AddedBand(added, |removed|)))[Emitted(0, k, s)] == 0
  {
    RemovedBandOnly(removed, k, s);
    AddedBandOnly(added, |removed|, k, s);
    CountsAppend(RemovedBand(removed), AddedBand(added, |removed|), Emitted(0, k, s));
  }

  /** A key that is neither removed nor added is written from the new layer
      exactly when it is a changed key with a row, and from the old layer as
      well exactly when, in addition, the last two entries of its row differ. */
  lemma PlanSides(removed: seq<string>, added: seq<string>, changed: seq<string>, data: map<string, Row>, k: string)
    requires RowsHaveAreas(data)
    requires k !in removed && k !in added
    ensures Emitted(0, k, New) in Untagged(Plan(removed, added, changed, data)) <==> k in changed && k in data
    ensures Emitted(0, k, Old) in Untagged(Plan(removed, added, changed, data)) <==>
            k in changed && k in data && LastTwoDiffer(data[k])
  {
    var kept := Kept(changed, data);
    var rb, ab := RemovedBand(removed), AddedBand(added, |removed|);
    var cb := ChangedBand(kept, |removed| + |added|, data);
    assert Plan(removed, added, changed, data) == rb + ab + cb;
    UntaggedAppend(rb + ab, cb);
    UntaggedAppend(rb, ab);
    RemovedBandOnly(removed, k, New);
    RemovedBandOnly(removed, k, Old);
    AddedBandOnly(added, |removed|, k, New);
    AddedBandOnly(added, |removed|, k, Old);
    if k in kept {
      ChangedBandSides(kept, |removed| + |added|, data);
    } else {
      ChangedBandOnly(kept, |removed| + |added|, data, k, New);
      ChangedBandOnly(kept, |removed| + |added|, data, k, Old);
    }
  }

  /** The written features with their IDs blanked: what is written, not under which number. */
  function Untagged(b: seq<Emitted>): seq<Emitted>
  {
    seq(|b|, a requires 0 <= a < |b| => Emitted(0, b[a].key, b[a].side))
  }

  /** The attribute values written with a feature: its ID, its changelog row
      and its side. */
  function Attributes(e: Emitted, data: map<string, Row>): seq<Value>
    requires e.key in data
  {
    [Num(e.id as real)] + data[e.key] + [Str(if e.side == Old then "Old" else "New")]
  }
}
