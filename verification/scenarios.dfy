/**
 * Worked examples: the filter `x>2` evaluated over x = [1, 2, 3, 4, 5] gives
 * [0, 0, 1, 1, 1]; it is applied to y = [10, 20, 30, 40, 50].
 */
module Scenarios {
  import opened Wrappers
  import opened Datasets
  import opened Selection
  import opened Filtering

  function V(x: real): Cell { Value(x) }

  function XGreaterThanTwo(): Dataset { Numeric([V(0.0), V(0.0), V(1.0), V(1.0), V(1.0)], [None, None, None]) }

  function Y(): WfDataset { Numeric([V(10.0), V(20.0), V(30.0), V(40.0), V(50.0)], [None, None, None]) }

  /** The filter `x>2` as booleans: [false, false, true, true, true], or its negation when inverted. */
  lemma Evaluated(invert: bool)
    ensures EvaluateFilter(Some(XGreaterThanTwo()), invert)
         == Mask(if invert then [true, true, false, false, false] else [false, false, true, true, true])
  {
  }

  /** The positions [2, 3, 4] are the true ones of [false, false, true, true, true]. */
  lemma KeptPositions(mask: seq<bool>)
    requires mask == [false, false, true, true, true]
    ensures TrueIndices(mask) == [2, 3, 4]
  {
    assert Count(mask[4..]) == 1;
    assert mask[3..][1..] == mask[4..];
    assert Count(mask[3..]) == 2;
    assert mask[2..][1..] == mask[3..];
    assert Count(mask[2..]) == 3;
    assert mask[1..][1..] == mask[2..];
    assert Count(mask[1..]) == 3;
    assert Count(mask) == 3;
    var r := TrueIndices(mask);
    assert mask[r[0]] && mask[r[1]] && mask[r[2]];
  }

  /** The positions [0, 1] are the true ones of [true, true, false, false, false]. */
  lemma InvertedPositions(mask: seq<bool>)
    requires mask == [true, true, false, false, false]
    ensures TrueIndices(mask) == [0, 1]
  {
    assert mask[4..][1..] == [];
    assert Count(mask[4..]) == 0;
    assert mask[3..][1..] == mask[4..];
    assert Count(mask[3..]) == 0;
    assert mask[2..][1..] == mask[3..];
    assert Count(mask[2..]) == 0;
    assert mask[1..][1..] == mask[2..];
    assert Count(mask[1..]) == 1;
    assert Count(mask) == 2;
    var r := TrueIndices(mask);
    assert r[0] < r[1] && mask[r[0]] && mask[r[1]];
  }

  /** A numeric source without error columns is filtered in its data column alone, after the cut. */
  lemma NumericSource(ds: WfDataset, mask: seq<bool>, replaceblanks: bool)
    requires ds.Numeric? && ds.errors == [None, None, None]
    ensures var chop := mask[..Min(|ds.data|, |mask|)];
      FilterSource(Some(ds), mask, replaceblanks) == Some(Numeric(ColumnFiltered(ds.data, chop, replaceblanks), [None, None, None]))
  {
    var chop := mask[..Min(|ds.data|, |mask|)];
    var r := NumericFiltered(ds, chop, replaceblanks);
    assert r.errors[0] == None && r.errors[1] == None && r.errors[2] == None;
    assert r.errors == [None, None, None];
  }

  /** A text source is filtered in its entries, after the cut. */
  lemma TextSource(ds: WfDataset, mask: seq<bool>, replaceblanks: bool)
    requires ds.Text?
    ensures var chop := mask[..Min(|ds.text|, |mask|)];
      FilterSource(Some(ds), mask, replaceblanks) == Some(Text(FilterText(ds.text, chop, replaceblanks)))
  {
  }

  /** Recomputing over a single filterable source binds just that source's filtered copy. */
  lemma SingleSource(name: string, ds: WfDataset, value: Option<Dataset>, invert: bool, replaceblanks: bool,
                     mask: seq<bool>, out: Dataset)
    requires EvaluateFilter(value, invert) == Mask(mask)
    requires FilterSource(Some(ds), mask, replaceblanks) == Some(out)
    ensures Recomputed(value, invert, replaceblanks, [name], map[name := ds]) == map[name := out]
  {
    RecomputedContents(value, invert, replaceblanks, [name], map[name := ds]);
    var r := Recomputed(value, invert, replaceblanks, [name], map[name := ds]);
    assert r.Keys == {name};
  }

  lemma KeptColumn()
    ensures ColumnFiltered(Y().data, [false, false, true, true, true], false) == [V(30.0), V(40.0), V(50.0)]
  {
    KeptPositions([false, false, true, true, true]);
  }

  lemma KeepsTruePositions()
    ensures Recomputed(Some(XGreaterThanTwo()), false, false, ["y"], map["y" := Y()])
         == map["y" := Numeric([V(30.0), V(40.0), V(50.0)], [None, None, None])]
  {
    var mask := [false, false, true, true, true];
    Evaluated(false);
    NumericSource(Y(), mask, false);
    assert mask[..5] == mask;
    KeptColumn();
    SingleSource("y", Y(), Some(XGreaterThanTwo()), false, false, mask, Numeric([V(30.0), V(40.0), V(50.0)], [None, None, None]));
  }

  lemma InvertedColumn()
    ensures ColumnFiltered(Y().data, [true, true, false, false, false], false) == [V(10.0), V(20.0)]
  {
    InvertedPositions([true, true, false, false, false]);
  }

  lemma InvertKeepsFalsePositions()
    ensures Recomputed(Some(XGreaterThanTwo()), true, false, ["y"], map["y" := Y()])
         == map["y" := Numeric([V(10.0), V(20.0)], [None, None, None])]
  {
    var mask := [true, true, false, false, false];
    Evaluated(true);
    NumericSource(Y(), mask, false);
    assert mask[..5] == mask;
    InvertedColumn();
    SingleSource("y", Y(), Some(XGreaterThanTwo()), true, false, mask, Numeric([V(10.0), V(20.0)], [None, None, None]));
  }

  lemma BlankedColumn()
    ensures ColumnFiltered(Y().data, [false, false, true, true, true], true) == [Missing, Missing, V(30.0), V(40.0), V(50.0)]
  {
  }

  lemma ReplaceBlanksKeepsLength()
    ensures Recomputed(Some(XGreaterThanTwo()), false, true, ["y"], map["y" := Y()])
         == map["y" := Numeric([Missing, Missing, V(30.0), V(40.0), V(50.0)], [None, None, None])]
  {
    var mask := [false, false, true, true, true];
    Evaluated(false);
    NumericSource(Y(), mask, true);
    assert mask[..5] == mask;
    BlankedColumn();
    SingleSource("y", Y(), Some(XGreaterThanTwo()), false, true, mask,
                 Numeric([Missing, Missing, V(30.0), V(40.0), V(50.0)], [None, None, None]));
  }

  /** A five-element filter over a three-element source is cut to three positions. */
  lemma LongerFilterIsCut()
    ensures Recomputed(Some(XGreaterThanTwo()), false, true, ["s"], map["s" := Numeric([V(1.0), V(2.0), V(3.0)], [None, None, None])])
         == map["s" := Numeric([Missing, Missing, V(3.0)], [None, None, None])]
  {
    var mask := [false, false, true, true, true];
    var s: WfDataset := Numeric([V(1.0), V(2.0), V(3.0)], [None, None, None]);
    Evaluated(false);
    NumericSource(s, mask, true);
    assert mask[..3] == [false, false, true];
    assert ColumnFiltered(s.data, [false, false, true], true) == [Missing, Missing, V(3.0)];
    SingleSource("s", s, Some(XGreaterThanTwo()), false, true, mask, Numeric([Missing, Missing, V(3.0)], [None, None, None]));
  }

  lemma KeptText()
    ensures FilterText(["a", "b", "c", "d", "e"], [false, false, true, true, true], false) == ["c", "d", "e"]
  {
    KeptPositions([false, false, true, true, true]);
  }

  /** A text source filtered by the same expression keeps the entries at true positions. */
  lemma TextSourceSelected()
    ensures Recomputed(Some(XGreaterThanTwo()), false, false, ["t"], map["t" := Text(["a", "b", "c", "d", "e"])])
         == map["t" := Text(["c", "d", "e"])]
  {
    var mask := [false, false, true, true, true];
    var t: WfDataset := Text(["a", "b", "c", "d", "e"]);
    Evaluated(false);
    TextSource(t, mask, false);
    assert mask[..5] == mask;
    KeptText();
    SingleSource("t", t, Some(XGreaterThanTwo()), false, false, mask, Text(["c", "d", "e"]));
  }

  lemma BlankedText()
    ensures FilterText(["a", "b", "c", "d", "e"], [false, false, true, true, true], true) == ["", "", "c", "d", "e"]
  {
  }

  /** With blanks, a text source keeps its length and shows "" at false positions. */
  lemma TextSourceBlanked()
    ensures Recomputed(Some(XGreaterThanTwo()), false, true, ["t"], map["t" := Text(["a", "b", "c", "d", "e"])])
         == map["t" := Text(["", "", "c", "d", "e"])]
  {
    var mask := [false, false, true, true, true];
    var t: WfDataset := Text(["a", "b", "c", "d", "e"]);
    Evaluated(false);
    TextSource(t, mask, true);
    assert mask[..5] == mask;
    BlankedText();
    SingleSource("t", t, Some(XGreaterThanTwo()), false, true, mask, Text(["", "", "c", "d", "e"]));
  }

  /** A missing source is skipped and logged, and a good one beside it is still filtered. */
  lemma MissingSourceIsolated()
    ensures Recomputed(Some(XGreaterThanTwo()), false, true, ["gone", "y"], map["y" := Y()]).Keys == {"y"}
    ensures RefreshLog("x>2", Some(XGreaterThanTwo()), false, ["gone", "y"], map["y" := Y()]) == [SourceNotOneDim("gone")]
  {
    Evaluated(false);
    RecomputedContents(Some(XGreaterThanTwo()), false, true, ["gone", "y"], map["y" := Y()]);
    NumericSource(Y(), [false, false, true, true, true], true);
    var names := ["gone", "y"];
    assert names[..1] == ["gone"];
    assert names[..1][..0] == [];
  }
}
