/** Task records as the spreadsheet hands them over (one dict per data row),
    the column set a pandas frame built from them has, and the row
    selection that boolean masks perform. */
module Records {

  /** One row of the task sheet: header name to cell text. */
  type Record = map<string, string>

  /** The columns of `pd.DataFrame(rows)`: every key that appears in any record. */
  function Columns(rows: seq<Record>): (cols: set<string>)
    ensures forall k :: k in cols <==> exists i :: 0 <= i < |rows| && k in rows[i]
  {
    if rows == [] then {}
    else
      var rest := Columns(rows[1..]);
      assert forall k :: k in rest <==> exists i :: 1 <= i < |rows| && k in rows[i] by {
        forall k | k in rest ensures exists i :: 1 <= i < |rows| && k in rows[i] {
          var j :| 0 <= j < |rows[1..]| && k in rows[1..][j];
          assert k in rows[j + 1];
        }
        forall k | (exists i :: 1 <= i < |rows| && k in rows[i]) ensures k in rest {
          var i :| 1 <= i < |rows| && k in rows[i];
          assert k in rows[1..][i - 1];
        }
      }
      rows[0].Keys + rest
  }

  /** A frame built from records has no columns exactly when every record is
      empty, which is when `DataFrame.empty` holds of a frame with rows. */
  lemma NoColumnsMeansEmptyRecords(rows: seq<Record>)
    ensures Columns(rows) == {} <==> forall i :: 0 <= i < |rows| ==> rows[i] == map[]
  {
    if exists i :: 0 <= i < |rows| && rows[i] != map[] {
      var i :| 0 <= i < |rows| && rows[i] != map[];
      var k :| k in rows[i];
      assert k in Columns(rows);
    }
  }

  /** `df[key].astype(str)` at one row: the cell text, or "nan" for a record
      that lacks a column some other record has. */
  function FieldText(r: Record, key: string): string
  {
    if key in r then r[key] else "nan"
  }

  /** `xs[mask]`: the elements satisfying `p`, in their original order. */
  function Keep<T>(xs: seq<T>, p: T -> bool): (kept: seq<T>)
    ensures |kept| <= |xs|
    ensures forall j :: 0 <= j < |kept| ==> p(kept[j])
    ensures forall j :: 0 <= j < |kept| ==> kept[j] in xs
  {
    if xs == [] then []
    else if p(xs[0]) then [xs[0]] + Keep(xs[1..], p)
    else Keep(xs[1..], p)
  }

  /** Every index moved up by one. */
  function Shift(idx: seq<nat>): (r: seq<nat>)
    ensures |r| == |idx|
    ensures forall j :: 0 <= j < |r| ==> r[j] == idx[j] + 1
    ensures forall i :: i in r <==> i >= 1 && i - 1 in idx
  {
    var r := seq(|idx|, j requires 0 <= j < |idx| => idx[j] + 1);
    assert forall i :: i in r ==> i >= 1 && i - 1 in idx by {
      forall i | i in r ensures i >= 1 && i - 1 in idx {
        var j :| 0 <= j < |r| && r[j] == i;
        assert idx[j] == i - 1;
      }
    }
    assert forall i :: i >= 1 && i - 1 in idx ==> i in r by {
      forall i | i >= 1 && i - 1 in idx ensures i in r {
        var j :| 0 <= j < |idx| && idx[j] == i - 1;
        assert r[j] == i;
      }
    }
    r
  }

  /** The positions `Keep` selects, all within `xs`. */
  function KeptIndices<T>(xs: seq<T>, p: T -> bool): (idx: seq<nat>)
    ensures |idx| <= |xs|
    ensures forall j :: 0 <= j < |idx| ==> idx[j] < |xs|
  {
    if xs == [] then []
    else
      var rest := Shift(KeptIndices(xs[1..], p));
      if p(xs[0]) then [0] + rest else rest
  }

  /** Positions listed in strictly increasing order. */
  predicate Increasing(idx: seq<nat>)
  {
    forall j1, j2 :: 0 <= j1 < j2 < |idx| ==> idx[j1] < idx[j2]
  }

  /** The selected positions are strictly increasing. */
  lemma {:induction false} KeptIndicesIncreasing<T>(xs: seq<T>, p: T -> bool)
    ensures Increasing(KeptIndices(xs, p))
  {
    if xs != [] {
      KeptIndicesIncreasing(xs[1..], p);
      var tail := KeptIndices(xs[1..], p);
      var rest := Shift(tail);
      assert Increasing(tail);
      forall j1, j2 | 0 <= j1 < j2 < |rest| ensures rest[j1] < rest[j2] {
        assert tail[j1] < tail[j2];
      }
      assert forall j :: 0 <= j < |rest| ==> rest[j] >= 1;
      if p(xs[0]) {
        var idx := [0] + rest;
        assert KeptIndices(xs, p) == idx;
        forall j1, j2 | 0 <= j1 < j2 < |idx| ensures idx[j1] < idx[j2] {
          if j1 > 0 {
            assert idx[j1] == rest[j1 - 1] && idx[j2] == rest[j2 - 1];
          }
        }
      } else {
        assert KeptIndices(xs, p) == rest;
      }
    }
  }

  /** A position is selected exactly when its element satisfies `p`. */
  lemma {:induction false} KeptIndicesExact<T>(xs: seq<T>, p: T -> bool)
    ensures forall i :: 0 <= i < |xs| ==> (i in KeptIndices(xs, p) <==> p(xs[i]))
  {
    if xs != [] {
      KeptIndicesExact(xs[1..], p);
      var tail := KeptIndices(xs[1..], p);
      var rest := Shift(tail);
      forall i | 1 <= i < |xs| ensures i in rest <==> p(xs[i]) {
        assert xs[i] == xs[1..][i - 1];
        assert i in rest <==> i - 1 in tail;
      }
      assert forall j :: 0 <= j < |rest| ==> rest[j] >= 1;
    }
  }

  /** `Keep` returns the elements at exactly the positions `KeptIndices`
      names, in order. */
  lemma {:induction false} KeepSpec<T>(xs: seq<T>, p: T -> bool)
    ensures var kept, idx := Keep(xs, p), KeptIndices(xs, p);
      && |kept| == |idx|
      && (forall j :: 0 <= j < |idx| ==> kept[j] == xs[idx[j]])
  {
    if xs != [] {
      KeepSpec(xs[1..], p);
      var tail, tailIdx := Keep(xs[1..], p), KeptIndices(xs[1..], p);
      var shifted := Shift(tailIdx);
      assert forall j :: 0 <= j < |shifted| ==> tail[j] == xs[shifted[j]] by {
        forall j | 0 <= j < |shifted| ensures tail[j] == xs[shifted[j]] {
          assert tail[j] == xs[1..][tailIdx[j]];
        }
      }
      if p(xs[0]) {
        var kept, idx := Keep(xs, p), KeptIndices(xs, p);
        assert kept == [xs[0]] + tail;
        assert idx == [0] + shifted;
        forall j | 0 <= j < |idx| ensures kept[j] == xs[idx[j]] {
          if j > 0 {
            assert kept[j] == tail[j - 1];
            assert idx[j] == shifted[j - 1];
          }
        }
      } else {
        assert Keep(xs, p) == tail;
        assert KeptIndices(xs, p) == shifted;
      }
    }
  }

  /** Appending one element extends the selection by that element when it passes. */
  lemma {:induction false} KeepSnoc<T>(xs: seq<T>, x: T, p: T -> bool)
    ensures Keep(xs + [x], p) == Keep(xs, p) + (if p(x) then [x] else [])
  {
    if xs == [] {
      assert [x][1..] == [];
    } else {
      assert (xs + [x])[1..] == xs[1..] + [x];
      KeepSnoc(xs[1..], x, p);
    }
  }

  /** A mask that is true everywhere selects the whole sequence. */
  lemma {:induction false} KeepAll<T>(xs: seq<T>, p: T -> bool)
    requires forall i :: 0 <= i < |xs| ==> p(xs[i])
    ensures Keep(xs, p) == xs
  {
    if xs != [] {
      assert p(xs[0]);
      KeepAll(xs[1..], p);
    }
  }

  /** A mask that is false everywhere selects nothing. */
  lemma {:induction false} KeepNone<T>(xs: seq<T>, p: T -> bool)
    requires forall i :: 0 <= i < |xs| ==> !p(xs[i])
    ensures Keep(xs, p) == []
  {
    if xs != [] {
      assert !p(xs[0]);
      KeepNone(xs[1..], p);
    }
  }
}
