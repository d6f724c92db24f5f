/**
 * Worked examples on the classes: the operation `FilterDatasets("x>2", ["gone", "y"], suffix="_f")`
 * run on a document holding y = [10, 20, 30, 40, 50], then the filtered datasets read
 * before and after a later change to the document. The expression `x>2` is evaluated
 * over x = [1, 2, 3, 4, 5], which no step here touches.
 */
module ReadScenarios {
  import opened Wrappers
  import opened Datasets
  import opened Filtering
  import opened FilteredDatasets
  import opened Scenarios

  /** `x>2` over an x that every document state here shares. */
  function XGreaterThanTwoEverywhere(): Evaluator
  {
    d => Some(XGreaterThanTwo())
  }

  function KeptY(): Dataset { Numeric([V(30.0), V(40.0), V(50.0)], [None, None, None]) }

  /** y filtered by `x>2` keeps [30, 40, 50]. */
  lemma YKept()
    ensures FilterSource(Some(Y()), [false, false, true, true, true], false) == Some(KeptY())
  {
    var mask := [false, false, true, true, true];
    NumericSource(Y(), mask, false);
    assert mask[..5] == mask;
    KeptColumn();
  }

  /** Refreshing over the sources "gone" (absent) and "y": only y is filtered, and "gone" is logged once. */
  lemma GoneAndY()
    ensures Recomputed(Some(XGreaterThanTwo()), false, false, ["gone", "y"], map["y" := Y()]) == map["y" := KeptY()]
    ensures RefreshLog("x>2", Some(XGreaterThanTwo()), false, ["gone", "y"], map["y" := Y()]) == [SourceNotOneDim("gone")]
  {
    var mask := [false, false, true, true, true];
    var names := ["gone", "y"];
    var sources := map["y" := Y()];
    Evaluated(false);
    YKept();
    assert names[..1] == ["gone"] && names[..1][..0] == [];
    assert Outputs(["gone"], sources, mask, false) == map[];
    assert SourceLog(["gone"], sources) == [SourceNotOneDim("gone")];
  }

  /** The sources of a document holding y and two filtered datasets are y alone. */
  lemma SourcesAreY(data: map<string, Entry>, g: DatasetFiltered, f: DatasetFiltered)
    requires data == map["y" := Plain(Y()), "gone_f" := Filtered(g), "y_f" := Filtered(f)]
    ensures (map n | n in data && data[n].Plain? :: data[n].ds) == map["y" := Y()]
  {
    var m := map n | n in data && data[n].Plain? :: data[n].ds;
    assert m.Keys == {"y"};
  }

  /** What `do` promises of the dictionary, for the input names ["gone", "y"] and suffix `_f` over a document holding y. */
  lemma BoundByDo(before: map<string, Entry>, after: map<string, Entry>, gen: FilterGenerator, doc: Document)
    requires before == map["y" := Plain(Y())]
    requires after.Keys == before.Keys + set o | o in OutputNames("", ["gone", "y"], "_f")
    requires forall n :: n in before && n !in OutputNames("", ["gone", "y"], "_f") ==> after[n] == before[n]
    requires forall i :: 0 <= i < 2 ==>
      var e := after[OutputName("", ["gone", "y"][i], "_f")];
      e.Filtered? && e.facade.generator == gen && e.facade.namein == ["gone", "y"][i]
    ensures "gone_f" in after && after["gone_f"].Filtered? && after["gone_f"].facade.namein == "gone"
    ensures "y_f" in after && after["y_f"].Filtered? && after["y_f"].facade.namein == "y"
    ensures after["gone_f"].facade.generator == gen && after["y_f"].facade.generator == gen
    ensures after == map["y" := Plain(Y()), "gone_f" := after["gone_f"], "y_f" := after["y_f"]]
  {
    var outnames := OutputNames("", ["gone", "y"], "_f");
    assert OutputName("", "gone", "_f") == "gone_f" && OutputName("", "y", "_f") == "y_f";
    assert outnames[0] == "gone_f" && outnames[1] == "y_f";
    assert outnames == ["gone_f", "y_f"];
    assert (set o | o in outnames) == {"gone_f", "y_f"};
    assert after.Keys == {"y", "gone_f", "y_f"};
    assert after["y"] == Plain(Y());
  }

  /**
   * `do` on a document holding y: the slots gone_f and y_f get fresh filtered
   * datasets sharing one fresh generator, none of them refreshed yet.
   */
  method DoOnY() returns (doc: Document, gen: FilterGenerator, g: DatasetFiltered, f: DatasetFiltered)
    ensures fresh(doc) && fresh(gen) && fresh(g) && fresh(f)
    ensures doc.data == map["y" := Plain(Y()), "gone_f" := Filtered(g), "y_f" := Filtered(f)] && doc.log == []
    ensures gen.changeset == -1 && gen.inexpr == "x>2" && gen.indatasets == ["gone", "y"]
    ensures !gen.invert && !gen.replaceblanks
    ensures g.generator == gen && g.namein == "gone" && g.document == doc && g.Valid() && g.changeset == -1
    ensures f.generator == gen && f.namein == "y" && f.document == doc && f.Valid() && f.changeset == -1
  {
    doc := new Document();
    doc.SetData("y", Plain(Y()));
    var op := new OperationDatasetsFilter("x>2", ["gone", "y"], "", "_f", false, false);
    var out := op.Do(doc);
    BoundByDo(map["y" := Plain(Y())], doc.data, op.generator, doc);
    g := doc.data["gone_f"].facade;
    f := doc.data["y_f"].facade;
    gen := f.generator;
  }

  /**
   * After `do`, the first read of y_f recomputes: it shows y filtered and logs the
   * missing source once. Reading gone_f in the same document version shows an empty
   * dataset and logs nothing more, since the shared generator is current. Rebinding y
   * bumps the change counter, and the next read of y_f recomputes and logs again.
   */
  method ReadAfterDo() returns (y1: Dataset, gone: Dataset, y2: Dataset, log1: seq<Diagnostic>, log2: seq<Diagnostic>)
    ensures y1 == KeptY() && gone == EmptyDataset() && y2 == KeptY()
    ensures log1 == [SourceNotOneDim("gone")]
    ensures log2 == [SourceNotOneDim("gone"), SourceNotOneDim("gone")]
  {
    var ev := XGreaterThanTwoEverywhere();
    GoneAndY();
    var doc, gen, g, f := DoOnY();
    SourcesAreY(doc.data, g, f);

    y1 := f.Current(ev);
    log1 := doc.log;
    gone := g.Current(ev);

    doc.SetData("y", Plain(Y()));
    assert doc.data == map["y" := Plain(Y()), "gone_f" := Filtered(g), "y_f" := Filtered(f)];
    SourcesAreY(doc.data, g, f);
    StampedKept(f.changeset, f.internal, doc.changeset - 1, Some(KeptY()), Some(KeptY()));
    StampedKept(gen.changeset, gen.outdatasets, doc.changeset - 1, map["y" := KeptY()], map["y" := KeptY()]);

    y2 := f.Current(ev);
    log2 := doc.log;
  }
}
