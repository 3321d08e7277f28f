/** The changelog algorithm end to end: the input checks, the changeset,
    the sorted table with its header, and the plan of geospatial features. */
module Changelog {
  import opened Wrappers
  import opened Values
  import opened KeyOrder
  import opened Rows
  import opened Label
  import opened Changeset
  import opened Table
  import opened Emission

  /** The exceptions the algorithm raises before computing anything. */
  datatype Error =
    | OldLayerFailed      // the old layer has no features
    | NewLayerFailed      // the new layer has no features
    | FieldCountMismatch  // the two field lists differ in length

  /** The CSV header and rows, the geospatial schema and the features written to it. */
  datatype Output = Output(header: seq<string>, rows: seq<Row>, geoHeader: seq<string>, plan: seq<Emitted>)

  /** The checks, in the order the algorithm makes them. */
  function Validate(oldLayer: Layer, newLayer: Layer, oldFields: seq<string>, newFields: seq<string>): (e: Result<(), Error>)
    ensures e.Success? <==> |oldLayer.features| > 0 && |newLayer.features| > 0 && |oldFields| == |newFields|
    ensures |oldLayer.features| == 0 ==> e == Failure(OldLayerFailed)
    ensures |oldLayer.features| > 0 && |newLayer.features| == 0 ==> e == Failure(NewLayerFailed)
    ensures |oldLayer.features| > 0 && |newLayer.features| > 0 && |oldFields| != |newFields| ==>
            e == Failure(FieldCountMismatch)
  {
    if |oldLayer.features| == 0 then Failure(OldLayerFailed)
    else if |newLayer.features| == 0 then Failure(NewLayerFailed)
    else if |oldFields| != |newFields| then Failure(FieldCountMismatch)
    else Success(())
  }

  /** Every changeset row is long enough to hold its two areas. */
  lemma ChangesHaveAreas(oldDict: map<string, Feature>, newDict: map<string, Feature>,
                         oldFields: seq<string>, newFields: seq<string>)
    requires |oldFields| == |newFields|
    ensures RowsHaveAreas(Changes(oldDict, newDict, oldFields, newFields))
  {
    forall k | k in Changes(oldDict, newDict, oldFields, newFields)
      ensures |Changes(oldDict, newDict, oldFields, newFields)[k]| >= 2
    {
      ChangesRowShape(oldDict, newDict, oldFields, newFields, k);
    }
  }

  /** The orders in which the algorithm visits keys: the new layer's
      features, and the removed, added and changed keys as listed from their
      sets. Any enumeration is allowed. */
  ghost predicate VisitOrders(oldDict: map<string, Feature>, newDict: map<string, Feature>,
                              newOrder: seq<string>, removedOrder: seq<string>,
                              addedOrder: seq<string>, changedOrder: seq<string>)
  {
    var p := Partition(oldDict.Keys, newDict.Keys);
    && Enumerates(newOrder, newDict.Keys)
    && Enumerates(removedOrder, p.removed)
    && Enumerates(addedOrder, p.added)
    && Enumerates(changedOrder, p.changed)
  }

  /** The algorithm, from its input checks to the last feature written. */
  method ProcessAlgorithm(oldLayer: Layer, newLayer: Layer, oldFields: seq<string>, newFields: seq<string>,
                          newOrder: seq<string>, removedOrder: seq<string>,
                          addedOrder: seq<string>, changedOrder: seq<string>)
    returns (r: Result<Output, Error>)
    requires VisitOrders(oldLayer.features, newLayer.features, newOrder, removedOrder, addedOrder, changedOrder)
    ensures r.Failure? <==> Validate(oldLayer, newLayer, oldFields, newFields).Failure?
    ensures r.Failure? ==> r.error == Validate(oldLayer, newLayer, oldFields, newFields).error
    ensures r.Success? ==>
              && |oldFields| == |newFields|
              && var data := Changes(oldLayer.features, newLayer.features, oldFields, newFields);
                 && r.value.header == Header(oldFields, newFields, oldLayer.name, newLayer.name)
                 && r.value.geoHeader == GeoHeader(r.value.header)
                 && r.value.geoHeader == ["ID"] + r.value.header + ["GeometrySource"]
                 && (forall o :: Enumerates(o, data.Keys) ==> r.value.rows == CsvRows(SortedItems(data, o)))
                 && RowsHaveAreas(data)
                 && r.value.plan == Plan(removedOrder, addedOrder, changedOrder, data)
  {
    var v := Validate(oldLayer, newLayer, oldFields, newFields);
    if v.Failure? {
      return Failure(v.error);
    }
    var oldDict, newDict := oldLayer.features, newLayer.features;
    var data, order := BuildData(oldDict, newDict, oldFields, newFields, newOrder, removedOrder);
    var items := SortedItems(data, order);
    forall o | Enumerates(o, data.Keys) ensures items == SortedItems(data, o) {
      SortedItemsIndependent(data, order, o);
    }
    var header := BuildHeader(oldFields, newFields, oldLayer.name, newLayer.name);
    ChangesHaveAreas(oldDict, newDict, oldFields, newFields);
    var plan := EmissionPlan(removedOrder, addedOrder, changedOrder, data);
    GeoHeaderShape(oldFields, newFields, oldLayer.name, newLayer.name);
    r := Success(Output(header, CsvRows(items), GeoHeader(header), plan));
  }

  /** Every row of `data` has `width` entries and starts with its own key. */
  ghost predicate RowsKeyed(data: map<string, Row>, width: nat)
  {
    forall k :: k in data ==> |data[k]| == width && width > 0 && data[k][0] == Str(k)
  }

  lemma ChangesKeyed(oldDict: map<string, Feature>, newDict: map<string, Feature>,
                     oldFields: seq<string>, newFields: seq<string>)
    requires |oldFields| == |newFields|
    ensures RowsKeyed(Changes(oldDict, newDict, oldFields, newFields), 2 * |newFields| + 4)
  {
    forall k | k in Changes(oldDict, newDict, oldFields, newFields)
      ensures |Changes(oldDict, newDict, oldFields, newFields)[k]| == 2 * |newFields| + 4
      ensures Changes(oldDict, newDict, oldFields, newFields)[k][0] == Str(k)
    {
      ChangesRowShape(oldDict, newDict, oldFields, newFields, k);
    }
  }

  lemma SortedRowsKeyed(data: map<string, Row>, width: nat, order: seq<string>)
    requires RowsKeyed(data, width) && Enumerates(order, data.Keys)
    ensures var items := SortedItems(data, order);
            var rows := CsvRows(items);
            && |rows| == |data|
            && forall i :: 0 <= i < |rows| ==> |rows[i]| == width && rows[i][0] == Str(items[i].0)
  {
    var items := SortedItems(data, order);
    DistinctCardinality(KeysOf(items), data.Keys);
  }

  /** The CSV has one row per changeset key, in strictly ascending key
      order, each starting with its key and holding all 2n+4 entries. A row
      is as wide as the header exactly when no offered title repeats;
      otherwise `QgsFields` dropped the repeats and the header is shorter. */
  lemma TableMatchesHeader(oldDict: map<string, Feature>, newDict: map<string, Feature>,
                           oldFields: seq<string>, newFields: seq<string>,
                           oldName: string, newName: string, order: seq<string>)
    requires |oldFields| == |newFields|
    requires Enumerates(order, Changes(oldDict, newDict, oldFields, newFields).Keys)
    ensures var data := Changes(oldDict, newDict, oldFields, newFields);
            var items := SortedItems(data, order);
            var rows := CsvRows(items);
            var h := Header(oldFields, newFields, oldName, newName);
            && |rows| == |data|
            && StrictlySorted(KeysOf(items))
            && (forall i :: 0 <= i < |rows| ==>
                  && |rows[i]| == 2 * |newFields| + 4 && rows[i][0] == Str(items[i].0)
                  && |h| <= |rows[i]|
                  && (|rows[i]| == |h| <==> Distinct(Titled(oldFields, newFields, oldName, newName))))
  {
    var data := Changes(oldDict, newDict, oldFields, newFields);
    HeaderWidth(oldFields, newFields, oldName, newName);
    ChangesKeyed(oldDict, newDict, oldFields, newFields);
    SortedRowsKeyed(data, 2 * |newFields| + 4, order);
  }

  lemma {:induction false} DistinctCardinality(s: seq<string>, keys: set<string>)
    requires Enumerates(s, keys)
    ensures |s| == |keys|
  {
    if s != [] {
      var rest := keys - {s[0]};
      assert Enumerates(s[1..], rest) by {
        forall k | k in rest ensures k in s[1..] {
          var i :| 0 <= i < |s| && s[i] == k;
          assert i != 0;
        }
      }
      DistinctCardinality(s[1..], rest);
    }
  }

  /** A written feature carries one value per column of the geospatial
      schema exactly when no offered header title repeats; otherwise it
      carries more values than the schema has columns. */
  lemma AttributesMatchSchema(oldDict: map<string, Feature>, newDict: map<string, Feature>,
                              oldFields: seq<string>, newFields: seq<string>,
                              oldName: string, newName: string, e: Emitted)
    requires |oldFields| == |newFields|
    requires e.key in Changes(oldDict, newDict, oldFields, newFields)
    ensures var a := Attributes(e, Changes(oldDict, newDict, oldFields, newFields));
            var g := GeoHeader(Header(oldFields, newFields, oldName, newName));
            && |a| == 2 * |newFields| + 6
            && |g| <= |a|
            && (|a| == |g| <==> Distinct(Titled(oldFields, newFields, oldName, newName)))
  {
    ChangesRowShape(oldDict, newDict, oldFields, newFields, e.key);
    HeaderWidth(oldFields, newFields, oldName, newName);
    GeoHeaderShape(oldFields, newFields, oldName, newName);
  }

  /** A changed key is written from the new layer exactly when it is in the
      changeset, and from the old layer as well exactly when, in addition,
      its two formatted areas differ; each of these happens once at most,
      and other attribute changes alone never bring the old geometry. */
  lemma ChangedKeysInPlan(oldDict: map<string, Feature>, newDict: map<string, Feature>,
                          oldFields: seq<string>, newFields: seq<string>,
                          newOrder: seq<string>, removedOrder: seq<string>,
                          addedOrder: seq<string>, changedOrder: seq<string>, k: string)
    requires |oldFields| == |newFields|
    requires VisitOrders(oldDict, newDict, newOrder, removedOrder, addedOrder, changedOrder)
    requires k in oldDict && k in newDict
    ensures RowsHaveAreas(Changes(oldDict, newDict, oldFields, newFields))
    ensures var p := Untagged(Plan(removedOrder, addedOrder, changedOrder, Changes(oldDict, newDict, oldFields, newFields)));
            && (Emitted(0, k, New) in p <==> k in Changes(oldDict, newDict, oldFields, newFields))
            && (Emitted(0, k, Old) in p <==>
                  k in Changes(oldDict, newDict, oldFields, newFields) && oldDict[k].area != newDict[k].area)
            && multiset(p)[Emitted(0, k, New)] == (if k in Changes(oldDict, newDict, oldFields, newFields) then 1 else 0)
            && multiset(p)[Emitted(0, k, Old)]
                 == (if k in Changes(oldDict, newDict, oldFields, newFields) && oldDict[k].area != newDict[k].area
                     then 1 else 0)
  {
    var data := Changes(oldDict, newDict, oldFields, newFields);
    var parts := Partition(oldDict.Keys, newDict.Keys);
    ChangesHaveAreas(oldDict, newDict, oldFields, newFields);
    assert k in parts.changed;
    assert k !in removedOrder && k !in addedOrder && k in changedOrder;
    PlanSides(removedOrder, addedOrder, changedOrder, data, k);
    PlanCounts(removedOrder, addedOrder, changedOrder, data, k);
    if k in data {
      ChangesRowShape(oldDict, newDict, oldFields, newFields, k);
    }
  }

  /** The worked example: R1's attribute f changed from x to y but not its
      area, and R2 is new. */
  const ExampleOld: map<string, Feature> := map["R1" := Feature(map["f" := Str("x")], "1.0000000")]
  const ExampleNew: map<string, Feature> :=
    map["R1" := Feature(map["f" := Str("y")], "1.0000000"), "R2" := Feature(map["f" := Str("z")], "2.0000000")]
  const ExampleR1: Row := [Str("R1"), Str("Changed f"), Str("x"), Str("y"), Str("1.0000000"), Str("1.0000000")]
  const ExampleR2: Row := [Str("R2"), Str("Added"), Null, Str("z"), Null, Str("2.0000000")]

  lemma ExampleWhatChanged()
    ensures WhatChanged(ExampleOld["R1"], ExampleNew["R1"], ["f"], ["f"]) == ["f"]
  {
    var o1, n1 := ExampleOld["R1"], ExampleNew["R1"];
    assert PairDiffers(o1, n1, ["f"], ["f"], 0);
    assert DiffIndices(o1, n1, ["f"], ["f"], 0) == [];
    assert DiffIndices(o1, n1, ["f"], ["f"], 1) == [0];
  }

  lemma ExampleRows()
    ensures RowOf(ExampleOld, ExampleNew, ["f"], ["f"], "R1") == ExampleR1
    ensures RowOf(ExampleOld, ExampleNew, ["f"], ["f"], "R2") == ExampleR2
  {
    var o1, n1, n2 := ExampleOld["R1"], ExampleNew["R1"], ExampleNew["R2"];
    ExampleWhatChanged();
    assert ChangeLabel(["f"]) == "Changed f" by { ChangeLabelExamples(); }
    assert Lookup(o1.attrs, ["f"]) == [Str("x")];
    assert Lookup(n1.attrs, ["f"]) == [Str("y")];
    assert Lookup(n2.attrs, ["f"]) == [Str("z")];
    assert Nulls(1) == [Null];
    assert Interleave([Str("x")], [Str("y")]) == [Str("x"), Str("y")];
    assert Interleave([Null], [Str("z")]) == [Null, Str("z")];
  }

  lemma ExampleChanges()
    ensures Changes(ExampleOld, ExampleNew, ["f"], ["f"]) == map["R1" := ExampleR1, "R2" := ExampleR2]
  {
    var data := map["R1" := ExampleR1, "R2" := ExampleR2];
    ExampleWhatChanged();
    ExampleRows();
    assert ExampleOld.Keys + ExampleNew.Keys == {"R1", "R2"};
    ChangesFrom(ExampleOld, ExampleNew, ["f"], ["f"], data);
  }

  lemma ExamplePlan(data: map<string, Row>)
    requires data == map["R1" := ExampleR1, "R2" := ExampleR2]
    ensures RowsHaveAreas(data)
    ensures Plan([], ["R2"], ["R1"], data) == [Emitted(0, "R2", New), Emitted(2, "R1", New)]
  {
    assert RowsHaveAreas(data);
    assert Kept(["R1"], data) == ["R1"];
    assert !LastTwoDiffer(data["R1"]);
    assert ChangedBand(["R1"], 1, data) == [Emitted(2, "R1", New)];
    assert RemovedBand([]) == [];
    assert AddedBand(["R2"], 0) == [Emitted(0, "R2", New)];
  }

  /** The example's changeset has the Changed row for R1 and the Added row
      for R2; R2 is written under ID 0 and R1 under ID 2, from the new layer
      only, since its area is unchanged. */
  lemma Example()
    ensures Changes(ExampleOld, ExampleNew, ["f"], ["f"]) == map["R1" := ExampleR1, "R2" := ExampleR2]
    ensures RowsHaveAreas(Changes(ExampleOld, ExampleNew, ["f"], ["f"]))
    ensures Plan([], ["R2"], ["R1"], Changes(ExampleOld, ExampleNew, ["f"], ["f"]))
            == [Emitted(0, "R2", New), Emitted(2, "R1", New)]
  {
    ExampleChanges();
    ExamplePlan(Changes(ExampleOld, ExampleNew, ["f"], ["f"]));
  }
}
