/** The local filter engine of the two-stage query (app.py:694-707): the
    translated filter set is applied to the freshly read records as a pandas
    boolean mask. Keys that are not columns of the frame are skipped, and a
    field matches when its text equals the filter value exactly. */
module LocalFilter {
  import opened Records

  /** Column name to expected cell text, as decoded from the model's JSON. */
  type Filters = map<string, string>

  /** The filter entries that constrain anything: those whose key is a column. */
  function Effective(f: Filters, cols: set<string>): (e: Filters)
    ensures e.Keys == f.Keys * cols
    ensures forall k :: k in e ==> e[k] == f[k]
  {
    map k | k in f && k in cols :: f[k]
  }

  /** A record passes when every effective entry equals its field's text. */
  predicate Matches(r: Record, e: Filters)
  {
    forall k :: k in e ==> FieldText(r, k) == e[k]
  }

  /** The mask predicate for one frame. */
  function Criterion(f: Filters, cols: set<string>): Record -> bool
  {
    r => Matches(r, Effective(f, cols))
  }

  /** `filtered_df` of `handle_query_task_v5`: the whole frame for an empty
      filter set, otherwise the rows the mask keeps. */
  function ApplyFilters(rows: seq<Record>, f: Filters): (kept: seq<Record>)
    ensures |kept| <= |rows|
    ensures forall j :: 0 <= j < |kept| ==> kept[j] in rows
    ensures forall j, k :: 0 <= j < |kept| && k in f && k in Columns(rows) ==> FieldText(kept[j], k) == f[k]
  {
    if f == map[] then rows
    else Keep(rows, Criterion(f, Columns(rows)))
  }

  /** Both branches of the source select by the same criterion: with no
      filters every record passes it. */
  lemma ApplyFiltersIsKeep(rows: seq<Record>, f: Filters)
    ensures ApplyFilters(rows, f) == Keep(rows, Criterion(f, Columns(rows)))
  {
    if f == map[] {
      assert forall i :: 0 <= i < |rows| ==> Criterion(f, Columns(rows))(rows[i]);
      KeepAll(rows, Criterion(f, Columns(rows)));
    }
  }

  /** The criterion in the source's terms: each filter key that is a column
      must hold the filter value. */
  lemma CriterionMeans(f: Filters, cols: set<string>, r: Record)
    ensures Criterion(f, cols)(r) <==> forall k :: k in f && k in cols ==> FieldText(r, k) == f[k]
  {
  }

  /** With no filters, or none naming a column, the result is every record
      in its original order. */
  lemma FilterIdentity(rows: seq<Record>, f: Filters)
    requires f == map[] || forall k :: k in f ==> k !in Columns(rows)
    ensures ApplyFilters(rows, f) == rows
  {
    var p := Criterion(f, Columns(rows));
    assert Effective(f, Columns(rows)) == map[];
    assert forall i :: 0 <= i < |rows| ==> p(rows[i]);
    KeepAll(rows, p);
  }

  /** The result is the order-preserving subsequence of `rows` at the
      increasing positions the mask selects. */
  lemma {:induction false} FilterIsSubsequence(rows: seq<Record>, f: Filters)
    ensures var kept, idx := ApplyFilters(rows, f), KeptIndices(rows, Criterion(f, Columns(rows)));
      && |kept| == |idx| && Increasing(idx)
      && (forall j :: 0 <= j < |idx| ==> kept[j] == rows[idx[j]])
  {
    var p := Criterion(f, Columns(rows));
    ApplyFiltersIsKeep(rows, f);
    KeepSpec(rows, p);
    KeptIndicesIncreasing(rows, p);
  }

  /** A position is kept exactly when, for every filter key that is a
      column, the field's text equals the filter value. */
  lemma {:induction false} FilterKeepsExactly(rows: seq<Record>, f: Filters)
    ensures var idx := KeptIndices(rows, Criterion(f, Columns(rows)));
      forall i :: 0 <= i < |rows| ==>
        (i in idx <==> forall k :: k in f && k in Columns(rows) ==> FieldText(rows[i], k) == f[k])
  {
    var p := Criterion(f, Columns(rows));
    KeptIndicesExact(rows, p);
    forall i | 0 <= i < |rows|
      ensures i in KeptIndices(rows, p) <==> forall k :: k in f && k in Columns(rows) ==> FieldText(rows[i], k) == f[k]
    {
      CriterionMeans(f, Columns(rows), rows[i]);
    }
  }

  /** Every record the filter drops fails at least one filter key that is
      a column. */
  lemma {:induction false} DroppedFailsSomeKey(rows: seq<Record>, f: Filters, i: int)
    requires 0 <= i < |rows| && rows[i] !in ApplyFilters(rows, f)
    ensures exists k :: k in f && k in Columns(rows) && FieldText(rows[i], k) != f[k]
  {
    var p := Criterion(f, Columns(rows));
    ApplyFiltersIsKeep(rows, f);
    KeepSpec(rows, p);
    KeptIndicesExact(rows, p);
    assert !p(rows[i]);
  }

  /** Filtering a filtered result again changes nothing. */
  lemma {:induction false} FilterIdempotent(rows: seq<Record>, f: Filters)
    ensures ApplyFilters(ApplyFilters(rows, f), f) == ApplyFilters(rows, f)
  {
    var kept := ApplyFilters(rows, f);
    ApplyFiltersIsKeep(rows, f);
    ApplyFiltersIsKeep(kept, f);
    var p, q := Criterion(f, Columns(rows)), Criterion(f, Columns(kept));
    forall i | 0 <= i < |kept| ensures q(kept[i]) {
      assert p(kept[i]);
      assert kept[i] in rows;
      var n :| 0 <= n < |rows| && rows[n] == kept[i];
      forall k | k in Columns(kept) ensures k in Columns(rows) {
        var m :| 0 <= m < |kept| && k in kept[m];
        assert kept[m] in rows;
        var n2 :| 0 <= n2 < |rows| && rows[n2] == kept[m];
      }
    }
    KeepAll(kept, q);
  }

  /** `r` passes the tests of the column keys among `done`. */
  predicate PassesOn(r: Record, f: Filters, cols: set<string>, done: set<string>)
  {
    forall k :: k in done && k in f && k in cols ==> FieldText(r, k) == f[k]
  }

  /** Adding one key to those tested adds exactly that key's column test. */
  lemma PassesOnStep(r: Record, f: Filters, cols: set<string>, done: set<string>, key: string)
    requires key in f
    ensures PassesOn(r, f, cols, done + {key})
        <==> PassesOn(r, f, cols, done) && (key in cols ==> FieldText(r, key) == f[key])
  {
  }

  /** Once every filter key has been tested, passing means matching. */
  lemma PassesOnAll(r: Record, f: Filters, cols: set<string>)
    ensures PassesOn(r, f, cols, f.Keys) <==> Matches(r, Effective(f, cols))
  {
  }

  /** `mask &= (df[key].astype(str) == value)`. */
  function AndColumnTest(mask: seq<bool>, rows: seq<Record>, key: string, value: string): (m: seq<bool>)
    requires |mask| == |rows|
    ensures |m| == |rows|
    ensures forall i :: 0 <= i < |rows| ==> (m[i] <==> mask[i] && FieldText(rows[i], key) == value)
  {
    seq(|rows|, i requires 0 <= i < |rows| => mask[i] && FieldText(rows[i], key) == value)
  }

  /** The boolean mask as the source builds it: all true at first, then for
      each filter key that is a column, `and` the column's equality test in. */
  method BuildMask(rows: seq<Record>, filters: Filters, cols: set<string>) returns (mask: seq<bool>)
    ensures |mask| == |rows|
    ensures forall i :: 0 <= i < |rows| ==> (mask[i] <==> Matches(rows[i], Effective(filters, cols)))
  {
    mask := seq(|rows|, _ => true);
    var pending := filters.Keys;
    ghost var done: set<string> := {};
    while pending != {}
      invariant pending + done == filters.Keys && pending !! done
      invariant |mask| == |rows|
      invariant forall i :: 0 <= i < |rows| ==> (mask[i] <==> PassesOn(rows[i], filters, cols, done))
      decreases |pending|
    {
      var key :| key in pending;
      forall i | 0 <= i < |rows| {
        PassesOnStep(rows[i], filters, cols, done, key);
      }
      if key in cols {
        mask := AndColumnTest(mask, rows, key, filters[key]);
      }
      pending := pending - {key};
      done := done + {key};
    }
    forall i | 0 <= i < |rows| {
      PassesOnAll(rows[i], filters, cols);
    }
  }

  /** `df[mask]`: the rows whose mask entry is true, in order. */
  method SelectByMask(rows: seq<Record>, mask: seq<bool>, ghost p: Record -> bool) returns (kept: seq<Record>)
    requires |mask| == |rows|
    requires forall i :: 0 <= i < |rows| ==> (mask[i] <==> p(rows[i]))
    ensures kept == Keep(rows, p)
  {
    kept := [];
    var i := 0;
    while i < |rows|
      invariant 0 <= i <= |rows|
      invariant kept == Keep(rows[..i], p)
    {
      assert rows[..i + 1] == rows[..i] + [rows[i]];
      KeepSnoc(rows[..i], rows[i], p);
      if mask[i] {
        kept := kept + [rows[i]];
      }
      i := i + 1;
    }
    assert rows[..|rows|] == rows;
  }

  /** The filter step of `handle_query_task_v5` as written: the empty filter
      set keeps the frame, otherwise the mask selects; it agrees with the
      declarative `ApplyFilters`. */
  method MaskFilter(rows: seq<Record>, filters: Filters) returns (kept: seq<Record>)
    ensures kept == ApplyFilters(rows, filters)
  {
    if filters == map[] {
      return rows;
    }
    var cols := Columns(rows);
    var mask := BuildMask(rows, filters, cols);
    kept := SelectByMask(rows, mask, Criterion(filters, cols));
  }

  /** The two-record example: filtering on one project keeps only its row. */
  lemma ProjectExample()
    ensures var a := map["專案名稱" := "A計畫", "任務狀態" := "待辦"];
            var b := map["專案名稱" := "B計畫", "任務狀態" := "已完成"];
      ApplyFilters([a, b], map["專案名稱" := "A計畫"]) == [a]
  {
    var a := map["專案名稱" := "A計畫", "任務狀態" := "待辦"];
    var b := map["專案名稱" := "B計畫", "任務狀態" := "已完成"];
    var f := map["專案名稱" := "A計畫"];
    var p := Criterion(f, Columns([a, b]));
    assert "專案名稱" in Columns([a, b]) by { assert "專案名稱" in [a, b][0]; }
    assert p(a);
    assert !p(b) by { assert FieldText(b, "專案名稱") != "A計畫"; }
    assert [a, b][1..] == [b];
    assert Keep([b], p) == [] by { assert [b][1..] == []; }
  }

  /** A key that names no column ("狀態" is not a header) leaves every record. */
  lemma UnknownKeyExample(rows: seq<Record>)
    requires forall i :: 0 <= i < |rows| ==> "狀態" !in rows[i]
    ensures ApplyFilters(rows, map["狀態" := "進行中"]) == rows
  {
    FilterIdentity(rows, map["狀態" := "進行中"]);
  }
}
