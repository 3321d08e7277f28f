/** The changelog rows: the key, the type label, the old and new value of
    every field pair side by side, then the old and new area. */
module Rows {
  import opened Values

  /** [x0, y0, x1, y1, ...]: the old/new column pairs of a row. */
  function Interleave<T>(xs: seq<T>, ys: seq<T>): seq<T>
    requires |xs| == |ys|
    decreases |xs|
  {
    if |xs| == 0 then []
    else Interleave(xs[..|xs| - 1], ys[..|ys| - 1]) + [xs[|xs| - 1], ys[|ys| - 1]]
  }

  lemma {:induction false} InterleaveAt<T>(xs: seq<T>, ys: seq<T>)
    requires |xs| == |ys|
    ensures |Interleave(xs, ys)| == 2 * |xs|
    ensures forall j :: 0 <= j < |xs| ==> Interleave(xs, ys)[2 * j] == xs[j]
    ensures forall j :: 0 <= j < |xs| ==> Interleave(xs, ys)[2 * j + 1] == ys[j]
  {
    if |xs| > 0 {
      var n := |xs| - 1;
      InterleaveAt(xs[..n], ys[..n]);
    }
  }

  /** Row of a key found only in the new layer: Null on every old side. */
  function AddedRow(key: string, n: Feature, newFields: seq<string>): Row
  {
    [Str(key), Str("Added")]
      + Interleave(Nulls(|newFields|), Lookup(n.attrs, newFields))
      + [Null, Str(n.area)]
  }

  /** Row of a key found only in the old layer: Null on every new side. */
  function RemovedRow(key: string, o: Feature, oldFields: seq<string>): Row
  {
    [Str(key), Str("Removed")]
      + Interleave(Lookup(o.attrs, oldFields), Nulls(|oldFields|))
      + [Str(o.area), Null]
  }

  /** Row of a key found in both layers: both values of every pair, equal or not. */
  function ChangedRow(key: string, typeLabel: string, o: Feature, n: Feature,
                      oldFields: seq<string>, newFields: seq<string>): Row
    requires |oldFields| == |newFields|
  {
    [Str(key), Str(typeLabel)]
      + Interleave(Lookup(o.attrs, oldFields), Lookup(n.attrs, newFields))
      + [Str(o.area), Str(n.area)]
  }

  /** `r` is laid out as key, label, the pairs (olds[i], news[i]) in field
      order, then the two areas: 2 + 2n + 2 entries. */
  ghost predicate Shaped(r: Row, key: string, typeLabel: string, olds: seq<Value>, news: seq<Value>,
                         oldArea: Value, newArea: Value)
    requires |olds| == |news|
  {
    && |r| == 2 * |olds| + 4
    && r[0] == Str(key) && r[1] == Str(typeLabel)
    && (forall i :: 0 <= i < |olds| ==> r[2 + 2 * i] == olds[i] && r[3 + 2 * i] == news[i])
    && r[|r| - 2] == oldArea && r[|r| - 1] == newArea
  }

  /** A row laid out from any pair list with the right entries is Shaped. */
  lemma LayoutShaped(head: seq<Value>, pairs: seq<Value>, tail: seq<Value>, olds: seq<Value>, news: seq<Value>,
                     key: string, typeLabel: string)
    requires |olds| == |news| && head == [Str(key), Str(typeLabel)] && |tail| == 2
    requires |pairs| == 2 * |olds|
    requires forall j :: 0 <= j < |olds| ==> pairs[2 * j] == olds[j] && pairs[2 * j + 1] == news[j]
    ensures Shaped(head + pairs + tail, key, typeLabel, olds, news, tail[0], tail[1])
  {
    var r := head + pairs + tail;
    forall i | 0 <= i < |olds| ensures r[2 + 2 * i] == olds[i] && r[3 + 2 * i] == news[i] {
      assert r[2 + 2 * i] == pairs[2 * i];
      assert r[3 + 2 * i] == pairs[2 * i + 1];
    }
  }

  lemma PairsShaped(head: seq<Value>, olds: seq<Value>, news: seq<Value>, tail: seq<Value>,
                    key: string, typeLabel: string)
    requires |olds| == |news| && head == [Str(key), Str(typeLabel)] && |tail| == 2
    ensures Shaped(head + Interleave(olds, news) + tail, key, typeLabel, olds, news, tail[0], tail[1])
  {
    InterleaveAt(olds, news);
    LayoutShaped(head, Interleave(olds, news), tail, olds, news, key, typeLabel);
  }

  /** An Added row is [key, 'Added', None, v1, None, v2, ..., None, newArea]. */
  lemma AddedRowShape(key: string, n: Feature, newFields: seq<string>)
    ensures Shaped(AddedRow(key, n, newFields), key, "Added",
                   Nulls(|newFields|), Lookup(n.attrs, newFields), Null, Str(n.area))
  {
    PairsShaped([Str(key), Str("Added")], Nulls(|newFields|), Lookup(n.attrs, newFields),
                [Null, Str(n.area)], key, "Added");
  }

  /** A Removed row is [key, 'Removed', o1, None, o2, None, ..., oldArea, None]. */
  lemma RemovedRowShape(key: string, o: Feature, oldFields: seq<string>)
    ensures Shaped(RemovedRow(key, o, oldFields), key, "Removed",
                   Lookup(o.attrs, oldFields), Nulls(|oldFields|), Str(o.area), Null)
  {
    PairsShaped([Str(key), Str("Removed")], Lookup(o.attrs, oldFields), Nulls(|oldFields|),
                [Str(o.area), Null], key, "Removed");
  }

  /** A Changed row records the old and the new value of every pair, then both areas. */
  lemma ChangedRowShape(key: string, typeLabel: string, o: Feature, n: Feature,
                        oldFields: seq<string>, newFields: seq<string>)
    requires |oldFields| == |newFields|
    ensures Shaped(ChangedRow(key, typeLabel, o, n, oldFields, newFields), key, typeLabel,
                   Lookup(o.attrs, oldFields), Lookup(n.attrs, newFields), Str(o.area), Str(n.area))
  {
    PairsShaped([Str(key), Str(typeLabel)], Lookup(o.attrs, oldFields), Lookup(n.attrs, newFields),
                [Str(o.area), Str(n.area)], key, typeLabel);
  }

  lemma LookupSnoc(attrs: map<string, Value>, fields: seq<string>, i: nat)
    requires i < |fields|
    ensures Lookup(attrs, fields[..i + 1]) == Lookup(attrs, fields[..i]) + [Get(attrs, fields[i])]
  {
  }

  lemma NullsSnoc(i: nat)
    ensures Nulls(i + 1) == Nulls(i) + [Null]
  {
  }

  /** Appending one more pair to a row under construction. */
  lemma PairStep<T>(head: seq<T>, xs: seq<T>, ys: seq<T>, x: T, y: T)
    requires |xs| == |ys|
    ensures head + Interleave(xs, ys) + [x] + [y] == head + Interleave(xs + [x], ys + [y])
  {
    assert (xs + [x])[..|xs|] == xs;
    assert (ys + [y])[..|ys|] == ys;
  }

  /** The loop that builds an Added row. */
  method BuildAddedRow(key: string, n: Feature, newFields: seq<string>) returns (row: Row)
    ensures row == AddedRow(key, n, newFields)
  {
    row := [Str(key), Str("Added")];
    for i := 0 to |newFields|
      invariant row == [Str(key), Str("Added")] + Interleave(Nulls(i), Lookup(n.attrs, newFields[..i]))
    {
      PairStep([Str(key), Str("Added")], Nulls(i), Lookup(n.attrs, newFields[..i]), Null, Get(n.attrs, newFields[i]));
      NullsSnoc(i);
      LookupSnoc(n.attrs, newFields, i);
      row := row + [Null];
      row := row + [Get(n.attrs, newFields[i])];
    }
    assert newFields[..|newFields|] == newFields;
    row := row + [Null, Str(n.area)];
  }

  /** The loop that builds a Removed row. */
  method BuildRemovedRow(key: string, o: Feature, oldFields: seq<string>) returns (row: Row)
    ensures row == RemovedRow(key, o, oldFields)
  {
    row := [Str(key), Str("Removed")];
    for i := 0 to |oldFields|
      invariant row == [Str(key), Str("Removed")] + Interleave(Lookup(o.attrs, oldFields[..i]), Nulls(i))
    {
      PairStep([Str(key), Str("Removed")], Lookup(o.attrs, oldFields[..i]), Nulls(i), Get(o.attrs, oldFields[i]), Null);
      NullsSnoc(i);
      LookupSnoc(o.attrs, oldFields, i);
      row := row + [Get(o.attrs, oldFields[i])];
      row := row + [Null];
    }
    assert oldFields[..|oldFields|] == oldFields;
    row := row + [Str(o.area), Null];
  }

  /** The loop that builds a Changed row once its label is known. */
  method BuildChangedRow(key: string, typeLabel: string, o: Feature, n: Feature,
                         oldFields: seq<string>, newFields: seq<string>) returns (row: Row)
    requires |oldFields| == |newFields|
    ensures row == ChangedRow(key, typeLabel, o, n, oldFields, newFields)
  {
    row := [Str(key), Str(typeLabel)];
    for i := 0 to |newFields|
      invariant row == [Str(key), Str(typeLabel)]
        + Interleave(Lookup(o.attrs, oldFields[..i]), Lookup(n.attrs, newFields[..i]))
    {
      PairStep([Str(key), Str(typeLabel)], Lookup(o.attrs, oldFields[..i]), Lookup(n.attrs, newFields[..i]),
               Get(o.attrs, oldFields[i]), Get(n.attrs, newFields[i]));
      LookupSnoc(o.attrs, oldFields, i);
      LookupSnoc(n.attrs, newFields, i);
      row := row + [Get(o.attrs, oldFields[i])];
      row := row + [Get(n.attrs, newFields[i])];
    }
    assert oldFields[..|oldFields|] == oldFields && newFields[..|newFields|] == newFields;
    row := row + [Str(o.area), Str(n.area)];
  }
}
