/** The tabular output: the header row and the changeset in key order. */
module Table {
  import opened Values
  import opened Rows
  import opened KeyOrder

  /** Column titles "<field> <layer name>" for one side. */
  function Titles(fields: seq<string>, layerName: string): (t: seq<string>)
    ensures |t| == |fields|
    ensures forall i :: 0 <= i < |fields| ==> t[i] == fields[i] + " " + layerName
  {
    seq(|fields|, i requires 0 <= i < |fields| => fields[i] + " " + layerName)
  }

  /** `QgsFields.append`: a field whose name is already present is refused. */
  function Append(fields: seq<string>, name: string): seq<string>
  {
    if name in fields then fields else fields + [name]
  }

  /** The names of a `QgsFields` after `names` are appended to an empty one, in order. */
  function FieldList(names: seq<string>): seq<string>
    decreases |names|
  {
    if |names| == 0 then [] else Append(FieldList(names[..|names| - 1]), names[|names| - 1])
  }

  lemma FieldListSnoc(names: seq<string>, name: string)
    ensures FieldList(names + [name]) == Append(FieldList(names), name)
  {
    assert (names + [name])[..|names|] == names;
  }

  /** Appending keeps exactly the names offered, each once, never more of them. */
  lemma {:induction false} FieldListMembers(names: seq<string>)
    ensures forall x :: x in FieldList(names) <==> x in names
    ensures Distinct(FieldList(names))
    ensures |FieldList(names)| <= |names|
  {
    if |names| > 0 {
      var n := |names| - 1;
      FieldListMembers(names[..n]);
      assert names == names[..n] + [names[n]];
    }
  }

  /** Names without repeats are all kept, in order. */
  lemma {:induction false} FieldListOfDistinct(names: seq<string>)
    requires Distinct(names)
    ensures FieldList(names) == names
  {
    if |names| > 0 {
      var n := |names| - 1;
      FieldListOfDistinct(names[..n]);
      assert names[n] !in names[..n];
      assert names == names[..n] + [names[n]];
    }
  }

  /** A repeated name is dropped, so the list comes out shorter. */
  lemma {:induction false} FieldListDropsRepeats(names: seq<string>)
    requires !Distinct(names)
    ensures |FieldList(names)| < |names|
  {
    var n := |names| - 1;
    var prefix := names[..n];
    FieldListMembers(prefix);
    if names[n] !in prefix {
      assert !Distinct(prefix) by {
        var i, j :| 0 <= i < j < |names| && names[i] == names[j];
        assert j < n;
        assert prefix[i] == prefix[j];
      }
      FieldListDropsRepeats(prefix);
    }
  }

  /** Kept names are all kept exactly when none repeats. */
  lemma FieldListLength(names: seq<string>)
    ensures |FieldList(names)| == |names| <==> Distinct(names)
  {
    if Distinct(names) {
      FieldListOfDistinct(names);
    } else {
      FieldListDropsRepeats(names);
    }
  }

  /** The titles offered to the header, in order: key, type, the column
      pairs, the two areas. */
  function Titled(oldFields: seq<string>, newFields: seq<string>, oldName: string, newName: string): seq<string>
    requires |oldFields| == |newFields|
  {
    ["ChannelReachIDPK", "Type"]
      + Interleave(Titles(oldFields, oldName), Titles(newFields, newName))
      + ["Shape__Area " + oldName, "Shape__Area " + newName]
  }

  /** The changelog's header: the offered titles as `QgsFields` keeps them. */
  function Header(oldFields: seq<string>, newFields: seq<string>, oldName: string, newName: string): seq<string>
    requires |oldFields| == |newFields|
  {
    FieldList(Titled(oldFields, newFields, oldName, newName))
  }

  /** The geospatial layer's schema: an ID in front, the header, the geometry's
      layer at the end, again through `QgsFields.append`. */
  function GeoHeader(header: seq<string>): seq<string>
  {
    FieldList(["ID"] + header + ["GeometrySource"])
  }

  /** The offered titles are ChannelReachIDPK, Type, the old/new title pairs
      in field order, each naming its layer, then the two area titles. */
  lemma HeaderShape(oldFields: seq<string>, newFields: seq<string>, oldName: string, newName: string)
    requires |oldFields| == |newFields|
    ensures var h := Titled(oldFields, newFields, oldName, newName);
            && |h| == 2 * |newFields| + 4
            && h[0] == "ChannelReachIDPK" && h[1] == "Type"
            && (forall i :: 0 <= i < |newFields| ==>
                  h[2 + 2 * i] == oldFields[i] + " " + oldName && h[3 + 2 * i] == newFields[i] + " " + newName)
            && h[|h| - 2] == "Shape__Area " + oldName && h[|h| - 1] == "Shape__Area " + newName
  {
    var olds, news := Titles(oldFields, oldName), Titles(newFields, newName);
    InterleaveAt(olds, news);
    var h := Titled(oldFields, newFields, oldName, newName);
    forall i | 0 <= i < |newFields|
      ensures h[2 + 2 * i] == oldFields[i] + " " + oldName && h[3 + 2 * i] == newFields[i] + " " + newName
    {
      assert h[2 + 2 * i] == Interleave(olds, news)[2 * i];
      assert h[3 + 2 * i] == Interleave(olds, news)[2 * i + 1];
    }
  }

  /** The header holds every offered title once. It has all 2n+4 columns
      exactly when no title repeats, and then it is the offered list. */
  lemma HeaderWidth(oldFields: seq<string>, newFields: seq<string>, oldName: string, newName: string)
    requires |oldFields| == |newFields|
    ensures var t := Titled(oldFields, newFields, oldName, newName);
            var h := Header(oldFields, newFields, oldName, newName);
            && Distinct(h)
            && (forall x :: x in h <==> x in t)
            && |h| <= 2 * |newFields| + 4
            && (|h| == 2 * |newFields| + 4 <==> Distinct(t))
            && (Distinct(t) ==> h == t)
  {
    var t := Titled(oldFields, newFields, oldName, newName);
    HeaderShape(oldFields, newFields, oldName, newName);
    FieldListMembers(t);
    FieldListLength(t);
    if Distinct(t) {
      FieldListOfDistinct(t);
    }
  }

  /** A name with a space in it is never one of the schema's own names. */
  lemma SpacedTitle(t: string, field: string, name: string)
    requires t == field + " " + name
    ensures t != "ID" && t != "GeometrySource" && t != "ChannelReachIDPK" && t != "Type"
  {
    assert t[|field|] == ' ';
    assert ' ' !in "ID" && ' ' !in "GeometrySource" && ' ' !in "ChannelReachIDPK" && ' ' !in "Type";
  }

  /** No offered title is "ID" or "GeometrySource". */
  lemma TitledAvoidsSchemaNames(oldFields: seq<string>, newFields: seq<string>, oldName: string, newName: string)
    requires |oldFields| == |newFields|
    ensures "ID" !in Titled(oldFields, newFields, oldName, newName)
    ensures "GeometrySource" !in Titled(oldFields, newFields, oldName, newName)
  {
    var t := Titled(oldFields, newFields, oldName, newName);
    HeaderShape(oldFields, newFields, oldName, newName);
    forall j | 0 <= j < |t| ensures t[j] != "ID" && t[j] != "GeometrySource" {
      if j == |t| - 2 {
        SpacedTitle(t[j], "Shape__Area", oldName);
      } else if j == |t| - 1 {
        SpacedTitle(t[j], "Shape__Area", newName);
      } else if j >= 2 {
        var i := (j - 2) / 2;
        if j == 2 + 2 * i {
          SpacedTitle(t[j], oldFields[i], oldName);
        } else {
          assert j == 3 + 2 * i;
          SpacedTitle(t[j], newFields[i], newName);
        }
      }
    }
  }

  /** The geospatial schema keeps ID, the whole header and GeometrySource:
      none of the header's titles can clash with the two added names. */
  lemma GeoHeaderShape(oldFields: seq<string>, newFields: seq<string>, oldName: string, newName: string)
    requires |oldFields| == |newFields|
    ensures var h := Header(oldFields, newFields, oldName, newName);
            GeoHeader(h) == ["ID"] + h + ["GeometrySource"]
  {
    var h := Header(oldFields, newFields, oldName, newName);
    HeaderWidth(oldFields, newFields, oldName, newName);
    TitledAvoidsSchemaNames(oldFields, newFields, oldName, newName);
    var g := ["ID"] + h + ["GeometrySource"];
    assert Distinct(g) by {
      forall i, j | 0 <= i < j < |g| ensures g[i] != g[j] {
        if 0 < i && j < |g| - 1 {
          assert g[i] == h[i - 1] && g[j] == h[j - 1];
        } else if i == 0 && j < |g| - 1 {
          assert g[j] == h[j - 1];
          assert g[j] in h;
        } else if 0 < i {
          assert g[i] == h[i - 1];
          assert g[i] in h;
        }
      }
    }
    FieldListOfDistinct(g);
  }

  lemma TitlesSnoc(fields: seq<string>, layerName: string, i: nat)
    requires i < |fields|
    ensures Titles(fields[..i + 1], layerName) == Titles(fields[..i], layerName) + [fields[i] + " " + layerName]
  {
  }

  /** The appends that build the header (`created_fields`), one field pair per iteration. */
  method BuildHeader(oldFields: seq<string>, newFields: seq<string>, oldName: string, newName: string)
    returns (created: seq<string>)
    requires |oldFields| == |newFields|
    ensures created == Header(oldFields, newFields, oldName, newName)
  {
    var head := ["ChannelReachIDPK", "Type"];
    assert FieldList(head) == head by {
      FieldListSnoc([], "ChannelReachIDPK");
      FieldListSnoc(["ChannelReachIDPK"], "Type");
      assert [] + ["ChannelReachIDPK"] == ["ChannelReachIDPK"];
    }
    created := [];
    created := Append(created, "ChannelReachIDPK");
    created := Append(created, "Type");
    ghost var offered := head;
    for i := 0 to |newFields|
      invariant offered == head + Interleave(Titles(oldFields[..i], oldName), Titles(newFields[..i], newName))
      invariant created == FieldList(offered)
    {
      var oldTitle, newTitle := oldFields[i] + " " + oldName, newFields[i] + " " + newName;
      PairStep(head, Titles(oldFields[..i], oldName), Titles(newFields[..i], newName), oldTitle, newTitle);
      TitlesSnoc(oldFields, oldName, i);
      TitlesSnoc(newFields, newName, i);
      FieldListSnoc(offered, oldTitle);
      FieldListSnoc(offered + [oldTitle], newTitle);
      created := Append(created, oldTitle);
      created := Append(created, newTitle);
      offered := offered + [oldTitle] + [newTitle];
    }
    assert oldFields[..|oldFields|] == oldFields && newFields[..|newFields|] == newFields;
    FieldListSnoc(offered, "Shape__Area " + oldName);
    FieldListSnoc(offered + ["Shape__Area " + oldName], "Shape__Area " + newName);
    created := Append(created, "Shape__Area " + oldName);
    created := Append(created, "Shape__Area " + newName);
    assert offered + ["Shape__Area " + oldName] + ["Shape__Area " + newName]
        == Titled(oldFields, newFields, oldName, newName);
  }

  lemma FieldListThree(k: string, ty: string, n: string)
    requires k != ty && n != k && n != ty
    ensures FieldList([k, ty, n]) == [k, ty, n]
  {
    FieldListSnoc([], k);
    assert [] + [k] == [k];
    FieldListSnoc([k], ty);
    assert [k] + [ty] == [k, ty];
    FieldListSnoc([k, ty], n);
    assert [k, ty] + [n] == [k, ty, n];
  }

  lemma FieldListRepeatedPairs(k: string, ty: string, n: string, ar: string)
    requires k != ty && n != k && n != ty && ar != k && ar != ty && ar != n
    ensures FieldList([k, ty, n, n, ar, ar]) == [k, ty, n, ar]
  {
    FieldListThree(k, ty, n);
    FieldListSnoc([k, ty, n], n);
    assert [k, ty, n] + [n] == [k, ty, n, n];
    FieldListSnoc([k, ty, n, n], ar);
    assert [k, ty, n, n] + [ar] == [k, ty, n, n, ar];
    FieldListSnoc([k, ty, n, n, ar], ar);
    assert [k, ty, n, n, ar] + [ar] == [k, ty, n, n, ar, ar];
  }

  /** Two layers with the same name and the same field: the pair titles
      coincide and so do the area titles, and the header keeps four names. */
  lemma HeaderWithRepeats()
    ensures Header(["Name"], ["Name"], "ChannelReach", "ChannelReach")
            == ["ChannelReachIDPK", "Type", "Name ChannelReach", "Shape__Area ChannelReach"]
  {
    var k, ty, n, ar := "ChannelReachIDPK", "Type", "Name ChannelReach", "Shape__Area ChannelReach";
    assert "Name" + " " + "ChannelReach" == n;
    assert "Shape__Area " + "ChannelReach" == ar;
    assert Titles(["Name"], "ChannelReach") == [n];
    assert Interleave([n], [n]) == [n, n];
    assert Titled(["Name"], ["Name"], "ChannelReach", "ChannelReach") == [k, ty, n, n, ar, ar];
    assert |k| == 16 && |ty| == 4 && |n| == 17 && |ar| == 24;
    FieldListRepeatedPairs(k, ty, n, ar);
  }

  /** The keys of a list of entries, in list order. */
  function KeysOf(items: seq<(string, Row)>): (ks: seq<string>)
    ensures |ks| == |items| && forall i :: 0 <= i < |items| ==> ks[i] == items[i].0
  {
    seq(|items|, i requires 0 <= i < |items| => items[i].0)
  }

  /** `dict(sorted(data.items()))`: the entries of `data` in ascending key
      order. `order` is the order in which `data` was filled. */
  function SortedItems(data: map<string, Row>, order: seq<string>): (items: seq<(string, Row)>)
    requires Enumerates(order, data.Keys)
    ensures StrictlySorted(KeysOf(items))
    ensures Enumerates(KeysOf(items), data.Keys)
    ensures forall i :: 0 <= i < |items| ==> items[i].0 in data && items[i].1 == data[items[i].0]
  {
    var ks := SortKeys(order);
    SortKeysOfEnumeration(order, order, data.Keys);
    var items := seq(|ks|, i requires 0 <= i < |ks| => (ks[i], data[ks[i]]));
    assert KeysOf(items) == ks;
    items
  }

  /** The order is the same whichever order `data` was filled in. */
  lemma SortedItemsIndependent(data: map<string, Row>, order1: seq<string>, order2: seq<string>)
    requires Enumerates(order1, data.Keys) && Enumerates(order2, data.Keys)
    ensures SortedItems(data, order1) == SortedItems(data, order2)
  {
    SortKeysOfEnumeration(order1, order2, data.Keys);
  }

  /** The rows the CSV writer receives: `data.values()` after the sort. */
  function CsvRows(items: seq<(string, Row)>): (rows: seq<Row>)
    ensures |rows| == |items| && forall i :: 0 <= i < |items| ==> rows[i] == items[i].1
  {
    seq(|items|, i requires 0 <= i < |items| => items[i].1)
  }
}
