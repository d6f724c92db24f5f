/**
 * The datasets a document holds, as values. Only the variants the filter code
 * distinguishes are kept apart: one-dimensional numeric and text datasets, which
 * it filters, a two-dimensional numeric dataset and datasets of any other type,
 * which it skips.
 */
module Datasets {
  import opened Wrappers

  /** One element of a numeric column: a number, or the NaN that stands for a blank. */
  datatype Cell = Value(x: real) | Missing

  datatype DataType = NumericData | TextData | OtherData

  datatype Dataset =
    /** A 1-D numeric dataset: the `data` column and a list of optional further columns (the error bars `serr`, `perr`, `nerr` in veusz), each possibly None. */
    | Numeric(data: seq<Cell>, errors: seq<Option<seq<Cell>>>)
    /** A 1-D text dataset. */
    | Text(text: seq<string>)
    /** A 2-D numeric dataset (an image). */
    | Numeric2D
    /** A dataset whose datatype is neither numeric nor text, of the given dimension count. */
    | Unsupported(dims: nat)
  {
    function Dimensions(): nat
    {
      match this
      case Numeric2D => 2
      case Unsupported(d) => d
      case _ => 1
    }

    function Datatype(): DataType
    {
      match this
      case Numeric(_, _) => NumericData
      case Numeric2D => NumericData
      case Text(_) => TextData
      case Unsupported(_) => OtherData
    }

    /** `len(ds.data)` for the 1-D kinds the filter handles. */
    function Length(): nat
    {
      match this
      case Numeric(data, _) => |data|
      case Text(text) => |text|
      case _ => 0
    }

    /** All columns of a dataset have the same length. */
    predicate Wf()
    {
      Numeric? ==> forall j :: 0 <= j < |errors| && errors[j].Some? ==> |errors[j].value| == |data|
    }
  }

  type WfDataset = d: Dataset | d.Wf() witness Text([])

  /** `Dataset(data=[])`: what a filtered dataset shows when its filter produced nothing. */
  function EmptyDataset(): (r: Dataset)
    ensures r.Wf() && r.Dimensions() == 1 && r.Datatype() == NumericData && r.Length() == 0
  {
    Numeric([], [None, None, None])
  }
}
