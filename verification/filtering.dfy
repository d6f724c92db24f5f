/**
 * What one refresh of a filter generator computes, as functions of the
 * evaluated filter expression and the document's datasets: the boolean filter,
 * the filtered copy of each source, and the diagnostics logged on the way.
 */
module Filtering {
  import opened Wrappers
  import opened Datasets
  import opened Selection

  /** A diagnostic the generator writes to the document log (the message text is not modelled). */
  datatype Diagnostic =
    | FilterDimensions(expr: string)    // filter expression is not 1-D
    | FilterNotNumeric(expr: string)    // filter expression is not numeric
    | SourceNotOneDim(name: string)     // source missing, or not 1-D
    | CannotFilter(name: string)        // source of an unsupported datatype

  function Min(a: nat, b: nat): nat { if a <= b then a else b }

  /** numpy's conversion of one numeric element to bool: zero is false, everything else (NaN too) is true. */
  predicate Truthy(c: Cell)
  {
    match c
    case Value(x) => x != 0.0
    case Missing => true
  }

  /** `filterarr`: the filter values as booleans, negated elementwise when `invert` is set. */
  function FilterArray(values: seq<Cell>, invert: bool): (mask: seq<bool>)
    ensures |mask| == |values|
    ensures forall i :: 0 <= i < |values| ==> mask[i] == (Truthy(values[i]) != invert)
  {
    var asBool := seq(|values|, i requires 0 <= i < |values| => Truthy(values[i]));
    if invert then seq(|asBool|, i requires 0 <= i < |asBool| => !asBool[i]) else asBool
  }

  /** How the evaluated filter expression is judged before any source is touched. */
  datatype FilterOutcome = NoValue | WrongDimensions | NotNumeric | Mask(mask: seq<bool>)

  function EvaluateFilter(value: Option<Dataset>, invert: bool): (r: FilterOutcome)
    ensures r.Mask? <==> value.Some? && value.value.Dimensions() == 1 && value.value.Datatype() == NumericData
    ensures r.Mask? ==> value.value.Numeric? && r.mask == FilterArray(value.value.data, invert)
    ensures r == NoValue <==> value.None?
    ensures r == WrongDimensions <==> value.Some? && value.value.Dimensions() != 1
    ensures r == NotNumeric <==> value.Some? && value.value.Dimensions() == 1 && value.value.Datatype() != NumericData
  {
    match value
    case None => NoValue
    case Some(d) =>
      if d.Dimensions() != 1 then WrongDimensions
      else if d.Datatype() != NumericData then NotNumeric
      else Mask(FilterArray(d.data, invert))
  }

  /** One column filtered under the `replaceblanks` policy, with NaN as the blank. */
  function ColumnFiltered(col: seq<Cell>, mask: seq<bool>, replaceblanks: bool): (r: seq<Cell>)
    requires |mask| <= |col|
    ensures replaceblanks ==> |r| == |mask| && forall i :: 0 <= i < |mask| ==> r[i] == if mask[i] then col[i] else Missing
    ensures !replaceblanks ==> |r| == Count(mask) && forall k :: 0 <= k < |r| ==> r[k] == col[TrueIndices(mask)[k]]
  {
    if replaceblanks then Blank(col, mask, Missing) else Select(col, mask)
  }

  function OptColumnFiltered(col: Option<seq<Cell>>, mask: seq<bool>, replaceblanks: bool): (r: Option<seq<Cell>>)
    requires col.Some? ==> |mask| <= |col.value|
    ensures r.None? <==> col.None?
    ensures r.Some? ==> r.value == ColumnFiltered(col.value, mask, replaceblanks)
  {
    match col
    case None => None
    case Some(c) => Some(ColumnFiltered(c, mask, replaceblanks))
  }

  /** What `filterNumeric` returns: every column filtered alike, a None column left None. */
  function NumericFiltered(ds: Dataset, mask: seq<bool>, replaceblanks: bool): (r: Dataset)
    requires ds.Numeric? && ds.Wf() && |mask| <= |ds.data|
    ensures r.Numeric? && r.Wf() && |r.errors| == |ds.errors|
    ensures r.Length() == if replaceblanks then |mask| else Count(mask)
    ensures r.data == ColumnFiltered(ds.data, mask, replaceblanks)
    ensures forall j :: 0 <= j < |ds.errors| ==> r.errors[j] == OptColumnFiltered(ds.errors[j], mask, replaceblanks)
  {
    Numeric(ColumnFiltered(ds.data, mask, replaceblanks),
            seq(|ds.errors|, j requires 0 <= j < |ds.errors| => OptColumnFiltered(ds.errors[j], mask, replaceblanks)))
  }

  /** What `filterText` returns, filtering the dataset's own entries: empty strings as blanks, or only the kept entries. */
  function FilterText(text: seq<string>, mask: seq<bool>, replaceblanks: bool): (r: seq<string>)
    requires |mask| <= |text|
    ensures replaceblanks ==> |r| == |mask| && forall i :: 0 <= i < |mask| ==> r[i] == if mask[i] then text[i] else ""
    ensures !replaceblanks ==> |r| == Count(mask) && forall k :: 0 <= k < |r| ==> r[k] == text[TrueIndices(mask)[k]]
  {
    if replaceblanks then Blank(text, mask, "") else Select(text, mask)
  }

  datatype PyError = NameError(name: string)

  /**
   * `filterText` as written: both comprehensions zip the filter with the name
   * `data`, which is bound neither in the method nor in the module, so the call
   * raises before producing anything.
   */
  function FilterTextAsWritten(text: seq<string>, mask: seq<bool>, replaceblanks: bool): (r: Result<seq<string>, PyError>)
    ensures r.Failure?
  {
    Failure(NameError("data"))
  }

  /** The written text filter fails on a text source the intended one filters. */
  lemma TextFilterFinding()
    ensures FilterTextAsWritten(["a", "b"], [true, false], false) == Failure(NameError("data"))
    ensures FilterText(["a", "b"], [true, false], false) == ["a"]
  {
    var r := FilterText(["a", "b"], [true, false], false);
    assert TrueIndices([true, false])[0] == 0;
  }

  /**
   * The filtered copy of one source, or None when the source is skipped
   * (missing, not 1-D, or of a datatype other than numeric or text). Source and
   * filter are first cut to the shorter of the two lengths.
   */
  function FilterSource(src: Option<WfDataset>, mask: seq<bool>, replaceblanks: bool): (r: Option<Dataset>)
    ensures r.Some? <==> Filterable(src)
    ensures r.Some? ==> r.value.Wf() && r.value.Datatype() == src.value.Datatype()
    ensures r.Some? ==>
      var n := Min(src.value.Length(), |mask|);
      r.value.Length() == if replaceblanks then n else Count(mask[..n])
    ensures r.Some? && src.value.Numeric? ==>
      var chop := mask[..Min(src.value.Length(), |mask|)];
      && r.value.Numeric?
      && r.value.data == ColumnFiltered(src.value.data, chop, replaceblanks)
      && |r.value.errors| == |src.value.errors|
      && forall j :: 0 <= j < |src.value.errors| ==>
           r.value.errors[j] == OptColumnFiltered(src.value.errors[j], chop, replaceblanks)
    ensures r.Some? && src.value.Text? ==>
      r.value.Text? && r.value.text == FilterText(src.value.text, mask[..Min(src.value.Length(), |mask|)], replaceblanks)
  {
    match src
    case None => None
    case Some(ds) =>
      if ds.Dimensions() != 1 then None
      else
        var minlen := Min(ds.Length(), |mask|);
        var filterarrchop := mask[..minlen];
        match ds
        case Numeric(_, _) => Some(NumericFiltered(ds, filterarrchop, replaceblanks))
        case Text(text) => Some(Text(FilterText(text, filterarrchop, replaceblanks)))
        case _ => None
  }

  /** Whether a source can be filtered: present, 1-D, and numeric or text. */
  predicate Filterable(src: Option<WfDataset>)
  {
    src.Some? && src.value.Dimensions() == 1 && (src.value.Numeric? || src.value.Text?)
  }

  /**
   * The diagnostic logged for a skipped source, if any: a missing or not 1-D
   * source is reported as such, a 1-D source of another datatype as unfilterable.
   */
  function SourceDiagnostic(name: string, src: Option<WfDataset>): (r: Option<Diagnostic>)
    ensures r.Some? <==> !Filterable(src)
    ensures r.Some? ==> (r.value.SourceNotOneDim? || r.value.CannotFilter?) && r.value.name == name
    ensures r.Some? ==> (r.value.SourceNotOneDim? <==> src.None? || src.value.Dimensions() != 1)
  {
    match src
    case None => Some(SourceNotOneDim(name))
    case Some(ds) =>
      if ds.Dimensions() != 1 then Some(SourceNotOneDim(name))
      else if ds.Numeric? || ds.Text? then None
      else Some(CannotFilter(name))
  }

  /**
   * `outdatasets` after the loop over the source names: each name whose source
   * could be filtered, bound to its filtered copy. A name repeated in `names`
   * is filtered again to the same value.
   */
  function Outputs(names: seq<string>, sources: map<string, WfDataset>, mask: seq<bool>, replaceblanks: bool): map<string, Dataset>
    decreases |names|
  {
    if names == [] then map[]
    else
      var prev := Outputs(names[..|names| - 1], sources, mask, replaceblanks);
      var name := names[|names| - 1];
      match FilterSource(Get(sources, name), mask, replaceblanks)
      case Some(f) => prev[name := f]
      case None => prev
  }

  /**
   * Each source is handled on its own: a name is bound exactly when it is one of
   * the names and its own source can be filtered, and then to that source's
   * filtered copy, whatever happens to the other names.
   */
  lemma {:induction false} OutputsContents(names: seq<string>, sources: map<string, WfDataset>, mask: seq<bool>, replaceblanks: bool)
    ensures forall n :: n in Outputs(names, sources, mask, replaceblanks) <==>
      n in names && FilterSource(Get(sources, n), mask, replaceblanks).Some?
    ensures forall n :: n in Outputs(names, sources, mask, replaceblanks) ==>
      Outputs(names, sources, mask, replaceblanks)[n] == FilterSource(Get(sources, n), mask, replaceblanks).value
    decreases |names|
  {
    if names != [] {
      var init := names[..|names| - 1];
      OutputsContents(init, sources, mask, replaceblanks);
      assert forall n :: n in names <==> n in init || n == names[|names| - 1];
    }
  }

  /** The diagnostics logged by the loop over the source names, in order. */
  function SourceLog(names: seq<string>, sources: map<string, WfDataset>): (r: seq<Diagnostic>)
    ensures |r| <= |names|
    decreases |names|
  {
    if names == [] then []
    else
      var name := names[|names| - 1];
      SourceLog(names[..|names| - 1], sources)
      + match SourceDiagnostic(name, Get(sources, name)) case Some(d) => [d] case None => []
  }

  /**
   * The log of the loop names only skipped sources, and every skipped source
   * among the names is logged; with `OutputsContents`, each name is either
   * filtered or logged, never both.
   */
  lemma {:induction false} SourceLogContents(names: seq<string>, sources: map<string, WfDataset>)
    ensures forall d :: d in SourceLog(names, sources) ==>
      (d.SourceNotOneDim? || d.CannotFilter?) && d.name in names && !Filterable(Get(sources, d.name))
    ensures forall n :: n in names && !Filterable(Get(sources, n)) ==>
      SourceDiagnostic(n, Get(sources, n)).value in SourceLog(names, sources)
    decreases |names|
  {
    if names != [] {
      var init, last := names[..|names| - 1], names[|names| - 1];
      SourceLogContents(init, sources);
      assert forall n :: n in names <==> n in init || n == last;
      var tail := match SourceDiagnostic(last, Get(sources, last)) case Some(d) => [d] case None => [];
      assert SourceLog(names, sources) == SourceLog(init, sources) + tail;
    }
  }

  /** `outdatasets` after a refresh that recomputes: nothing unless the filter evaluated to a 1-D numeric dataset. */
  function Recomputed(value: Option<Dataset>, invert: bool, replaceblanks: bool,
                      names: seq<string>, sources: map<string, WfDataset>): map<string, Dataset>
  {
    match EvaluateFilter(value, invert)
    case Mask(filterarr) => Outputs(names, sources, filterarr, replaceblanks)
    case _ => map[]
  }

  /**
   * A recomputing refresh binds a name exactly when the filter is usable, the
   * name is one of the sources and its source can be filtered; so only source
   * names are ever bound, and a bad filter binds none.
   */
  lemma RecomputedContents(value: Option<Dataset>, invert: bool, replaceblanks: bool,
                           names: seq<string>, sources: map<string, WfDataset>)
    ensures forall n :: n in Recomputed(value, invert, replaceblanks, names, sources) <==>
      && EvaluateFilter(value, invert).Mask?
      && n in names
      && FilterSource(Get(sources, n), EvaluateFilter(value, invert).mask, replaceblanks).Some?
    ensures forall n :: n in Recomputed(value, invert, replaceblanks, names, sources) ==>
      Recomputed(value, invert, replaceblanks, names, sources)[n]
        == FilterSource(Get(sources, n), EvaluateFilter(value, invert).mask, replaceblanks).value
  {
    if EvaluateFilter(value, invert).Mask? {
      OutputsContents(names, sources, EvaluateFilter(value, invert).mask, replaceblanks);
    }
  }

  /**
   * The diagnostics a recomputing refresh logs: nothing for an absent filter
   * value, one entry naming the expression for a filter that is not 1-D or not
   * numeric, and the per-source log for a usable filter.
   */
  function RefreshLog(expr: string, value: Option<Dataset>, invert: bool,
                      names: seq<string>, sources: map<string, WfDataset>): (r: seq<Diagnostic>)
    ensures value.None? ==> r == []
    ensures value.Some? && value.value.Dimensions() != 1 ==> r == [FilterDimensions(expr)]
    ensures value.Some? && value.value.Dimensions() == 1 && value.value.Datatype() != NumericData ==>
      r == [FilterNotNumeric(expr)]
    ensures EvaluateFilter(value, invert).Mask? ==> r == SourceLog(names, sources)
  {
    match EvaluateFilter(value, invert)
    case NoValue => []
    case WrongDimensions => [FilterDimensions(expr)]
    case NotNumeric => [FilterNotNumeric(expr)]
    case Mask(_) => SourceLog(names, sources)
  }
}
