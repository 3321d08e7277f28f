/** The "Type" label of a Changed row, built from the names of the fields
    that differ. */
module Label {

  /** Python's `sep.join(parts)`. */
  function Join(sep: string, parts: seq<string>): string
  {
    if |parts| == 0 then ""
    else if |parts| == 1 then parts[0]
    else parts[0] + sep + Join(sep, parts[1..])
  }

  /** Python's `w[:-2]`. */
  function DropLastTwo(w: seq<string>): seq<string>
  {
    if |w| >= 2 then w[..|w| - 2] else []
  }

  /** Python's `w[-2:]`. */
  function LastTwo(w: seq<string>): seq<string>
  {
    if |w| >= 2 then w[|w| - 2..] else w
  }

  /** The program's label expression, piece by piece: every name but the
      last two joined by ", ", then the last two joined by " & " (by ", & "
      unless there are exactly two names). */
  function ChangeLabel(what: seq<string>): string
  {
    var sep := (if |what| != 2 then "," else "") + " & ";
    "Changed " + Join(", ", DropLastTwo(what) + [Join(sep, LastTwo(what))])
  }

  /** The label as a reader of the changelog sees it. */
  function EnglishList(names: seq<string>): string
    requires |names| > 0
  {
    if |names| == 1 then names[0]
    else if |names| == 2 then names[0] + " & " + names[1]
    else Join(", ", names[..|names| - 1]) + ", & " + names[|names| - 1]
  }

  lemma {:induction false} JoinSnoc(sep: string, xs: seq<string>, y: string)
    requires |xs| > 0
    ensures Join(sep, xs + [y]) == Join(sep, xs) + sep + y
  {
    if |xs| > 1 {
      assert (xs + [y])[1..] == xs[1..] + [y];
      JoinSnoc(sep, xs[1..], y);
    } else {
      assert xs + [y] == [xs[0], y];
      assert [xs[0], y][1..] == [y];
    }
  }

  /** One name reads "Changed A", two "Changed A & B", and three or more
      "Changed A, B, & C", with a comma before the ampersand. */
  lemma ChangeLabelReads(what: seq<string>)
    requires |what| > 0
    ensures ChangeLabel(what) == "Changed " + EnglishList(what)
  {
    var n := |what|;
    if n >= 3 {
      var front, b, c := what[..n - 2], what[n - 2], what[n - 1];
      assert "," + " & " == ", & ";
      assert LastTwo(what) == [b, c];
      assert [b, c][1..] == [c];
      assert DropLastTwo(what) == front;
      var j := Join(", & ", [b, c]);
      assert Join(", & ", [c]) == c;
      assert j == b + ", & " + Join(", & ", [c]);
      assert ChangeLabel(what) == "Changed " + Join(", ", front + [j]);
      JoinSnoc(", ", front, j);
      JoinSnoc(", ", front, b);
      assert front + [b] == what[..n - 1];
      assert EnglishList(what) == Join(", ", front) + ", " + b + ", & " + c;
      assert ChangeLabel(what) == "Changed " + (Join(", ", front) + ", " + (b + ", & " + c));
    } else if n == 2 {
      assert LastTwo(what) == what;
      assert what[1..] == [what[1]];
      assert "" + " & " == " & ";
      assert DropLastTwo(what) + [Join(" & ", what)] == [Join(" & ", what)];
    }
  }

  lemma ChangeLabelExamples()
    ensures ChangeLabel(["A"]) == "Changed A"
    ensures ChangeLabel(["A", "B"]) == "Changed A & B"
    ensures ChangeLabel(["A", "B", "C"]) == "Changed A, B, & C"
  {
    ChangeLabelReads(["A"]);
    ChangeLabelReads(["A", "B"]);
    ChangeLabelReads(["A", "B", "C"]);
    assert ["A", "B", "C"][..2] == ["A", "B"];
    assert ["A", "B"][1..] == ["B"];
  }
}
