/**
 * The filtered-dataset machinery: a generator shared by several filtered
 * datasets, which recomputes all their contents once per document change; the
 * filtered dataset itself, a facade that refreshes from the generator when the
 * document has changed; and the undoable operation that creates them.
 */
module FilteredDatasets {
  import opened Wrappers
  import opened Datasets
  import opened Filtering
  import opened NameOrder
  import SaveFormat

  /** What a name in the document is bound to: an ordinary dataset, or a filtered dataset. */
  datatype Entry = Plain(ds: WfDataset) | Filtered(facade: DatasetFiltered)

  /** Whether an entry is a filtered dataset computed by `gen` (`getattr(ds, "generator", None) is gen`). */
  predicate BoundTo(e: Entry, gen: FilterGenerator)
  {
    e.Filtered? && e.facade.generator == gen
  }

  /**
   * The document as the filter code sees it: a change counter that every
   * `SetData` and `DeleteData` bumps, the name-to-dataset dictionary and the log.
   */
  class Document {
    var changeset: nat
    var data: map<string, Entry>
    var log: seq<Diagnostic>

    constructor ()
      ensures changeset == 0 && data == map[] && log == []
    {
      changeset, data, log := 0, map[], [];
    }

    /** The ordinary datasets of the document, which a generator can filter. */
    function Sources(): (m: map<string, WfDataset>)
      reads this`data
      ensures forall n :: n in m <==> n in data && data[n].Plain?
      ensures forall n :: n in m ==> m[n] == data[n].ds
    {
      map n | n in data && data[n].Plain? :: data[n].ds
    }

    method SetData(name: string, e: Entry)
      modifies this`data, this`changeset
      ensures data == old(data)[name := e] && changeset == old(changeset) + 1
    {
      data := data[name := e];
      changeset := changeset + 1;
    }

    method DeleteData(name: string)
      modifies this`data, this`changeset
      ensures data == old(data) - {name} && changeset == old(changeset) + 1
    {
      data := data - {name};
      changeset := changeset + 1;
    }

    method Log(d: Diagnostic)
      modifies this`log
      ensures log == old(log) + [d]
    {
      log := log + [d];
    }
  }

  /** The source a generator finds under a name: only an ordinary dataset counts. */
  function SourceOf(e: Option<Entry>): (r: Option<WfDataset>)
    ensures r.Some? <==> e.Some? && e.value.Plain?
    ensures r.Some? ==> r.value == e.value.ds
  {
    match e
    case Some(Plain(ds)) => Some(ds)
    case _ => None
  }

  /** The source name of a filtered dataset; "" for an ordinary one. */
  function NameIn(e: Entry): string
  {
    if e.Filtered? then e.facade.namein else ""
  }

  /** For each of the names `ks`, the source name of its entry. */
  function NamesAt(data: map<string, Entry>, ks: seq<string>): (r: seq<string>)
    requires forall k :: k in ks ==> k in data
    ensures |r| == |ks| && forall i :: 0 <= i < |ks| ==> r[i] == NameIn(data[ks[i]])
    decreases |ks|
  {
    if ks == [] then []
    else
      var init := ks[..|ks| - 1];
      assert forall x :: x in init ==> x in ks;
      NamesAt(data, init) + [NameIn(data[ks[|ks| - 1]])]
  }

  /** For each of the names `ks`, whether its entry is bound to `gen`. */
  function BoundMask(data: map<string, Entry>, ks: seq<string>, gen: FilterGenerator): (r: seq<bool>)
    requires forall k :: k in ks ==> k in data
    ensures |r| == |ks| && forall i :: 0 <= i < |ks| ==> r[i] == BoundTo(data[ks[i]], gen)
    decreases |ks|
  {
    if ks == [] then []
    else
      var init := ks[..|ks| - 1];
      assert forall x :: x in init ==> x in ks;
      BoundMask(data, init, gen) + [BoundTo(data[ks[|ks| - 1]], gen)]
  }

  /**
   * The source names of the entries bound to `gen`, visiting the names `ks` in
   * order: exactly the source names of the bound entries, in the order of `ks`.
   */
  function BoundNamesIn(data: map<string, Entry>, ks: seq<string>, gen: FilterGenerator): (r: seq<string>)
    requires forall k :: k in ks ==> k in data
    ensures r == Selection.Select(NamesAt(data, ks), BoundMask(data, ks, gen))
    decreases |ks|
  {
    if ks == [] then []
    else
      var k := ks[|ks| - 1];
      var init := ks[..|ks| - 1];
      var prev := BoundNamesIn(data, init, gen);
      assert forall x :: x in init ==> x in ks;
      Selection.SelectSnoc(NamesAt(data, init), BoundMask(data, init, gen), NameIn(data[k]), BoundTo(data[k], gen));
      if BoundTo(data[k], gen) then prev + [data[k].facade.namein] else prev
  }

  /** Visiting one more name lists its source name exactly when its entry is bound to `gen`. */
  lemma BoundNamesSnoc(data: map<string, Entry>, ks: seq<string>, i: nat, gen: FilterGenerator)
    requires forall k :: k in ks ==> k in data
    requires i < |ks|
    ensures BoundNamesIn(data, ks[..i + 1], gen) == BoundNamesIn(data, ks[..i], gen)
      + if BoundTo(data[ks[i]], gen) then [data[ks[i]].facade.namein] else []
  {
    assert ks[..i + 1][..i] == ks[..i];
  }

  /** Only the source names of entries bound to `gen` are listed. */
  lemma BoundNamesSound(data: map<string, Entry>, ks: seq<string>, gen: FilterGenerator)
    requires forall k :: k in ks ==> k in data
    ensures forall n :: n in BoundNamesIn(data, ks, gen) ==>
      exists k :: k in ks && BoundTo(data[k], gen) && data[k].facade.namein == n
  {
    var r := BoundNamesIn(data, ks, gen);
    var mask := BoundMask(data, ks, gen);
    forall n | n in r
      ensures exists k :: k in ks && BoundTo(data[k], gen) && data[k].facade.namein == n
    {
      var j :| 0 <= j < |r| && r[j] == n;
      var t := Selection.TrueIndices(mask)[j];
      assert mask[t] && r[j] == NamesAt(data, ks)[t];
      assert ks[t] in ks;
    }
  }

  /** The source name of every entry bound to `gen` is listed. */
  lemma BoundNamesComplete(data: map<string, Entry>, ks: seq<string>, gen: FilterGenerator, t: nat)
    requires forall k :: k in ks ==> k in data
    requires t < |ks| && BoundTo(data[ks[t]], gen)
    ensures data[ks[t]].facade.namein in BoundNamesIn(data, ks, gen)
  {
    var r := BoundNamesIn(data, ks, gen);
    var mask := BoundMask(data, ks, gen);
    var idx := Selection.TrueIndices(mask);
    Selection.TrueIndicesComplete(mask, t);
    var j :| 0 <= j < |idx| && idx[j] == t;
    assert r[j] == NamesAt(data, ks)[t];
  }

  /** The names a generator lists when saved: those of its datasets still in the document, in output-name order. */
  ghost function BoundNames(data: map<string, Entry>, gen: FilterGenerator): seq<string>
  {
    BoundNamesIn(data, SortedKeys(data.Keys), gen)
  }

  /** The statement a generator writes for the document's current contents. */
  ghost function SavedStatement(gen: FilterGenerator, data: map<string, Entry>): string
  {
    SaveFormat.Statement(SaveFormat.SaveArgs(SaveFormat.FilterCall(
      gen.inexpr, BoundNames(data, gen), gen.prefix, gen.suffix, gen.invert, gen.replaceblanks)))
  }

  /** The first filtered dataset computed by `gen`, visiting the names `ks` in order. */
  function FirstBound(data: map<string, Entry>, ks: seq<string>, gen: FilterGenerator): (r: Option<DatasetFiltered>)
    requires forall k :: k in ks ==> k in data
    ensures r.Some? <==> exists k :: k in ks && BoundTo(data[k], gen)
    ensures r.Some? ==> r.value.generator == gen && Filtered(r.value) in data.Values
    ensures r.Some? ==> exists i :: 0 <= i < |ks| && data[ks[i]] == Filtered(r.value)
                                    && forall j :: 0 <= j < i ==> !BoundTo(data[ks[j]], gen)
    decreases |ks|
  {
    if ks == [] then None
    else if BoundTo(data[ks[0]], gen) then Some(data[ks[0]].facade)
    else
      assert forall k :: k in ks ==> k == ks[0] || k in ks[1..];
      FirstBound(data, ks[1..], gen)
  }

  /**
   * `evalDatasetExpression(doc, inexpr)` for a generator's filter expression:
   * the dataset the expression evaluates to over the document's datasets, or None.
   */
  type Evaluator = map<string, Entry> -> Option<Dataset>

  /**
   * A cache stamped with the change count `stamp` is valid for a document at
   * change count `counter` whose contents call for `expected`: the stamp is not
   * ahead of the document, and when the two agree the cache holds `expected`.
   */
  predicate Stamped<T(==)>(stamp: int, cached: T, counter: nat, expected: T)
  {
    stamp <= counter && (stamp == counter ==> cached == expected)
  }

  /**
   * A cache that has never been filled (stamp -1) is valid, and a change to the
   * document, which bumps its counter, keeps a valid cache valid whatever the
   * document now holds.
   */
  lemma StampedKept<T>(stamp: int, cached: T, counter: nat, expected: T, expected': T)
    ensures Stamped(-1, cached, counter, expected)
    ensures Stamped(stamp, cached, counter, expected) ==> Stamped(stamp, cached, counter + 1, expected')
  {
  }

  /**
   * Computes the filtered copies of the source datasets for every filtered
   * dataset that shares it, caching them until the document changes.
   */
  class FilterGenerator {
    const inexpr: string
    const indatasets: seq<string>
    const prefix: string
    const suffix: string
    const invert: bool
    const replaceblanks: bool

    var changeset: int
    var outdatasets: map<string, Dataset>

    constructor (inexpr: string, indatasets: seq<string>, prefix: string, suffix: string,
                 invert: bool, replaceblanks: bool)
      ensures this.inexpr == inexpr && this.indatasets == indatasets
      ensures this.prefix == prefix && this.suffix == suffix
      ensures this.invert == invert && this.replaceblanks == replaceblanks
      ensures changeset == -1 && outdatasets == map[]
    {
      this.inexpr := inexpr;
      this.indatasets := indatasets;
      this.prefix := prefix;
      this.suffix := suffix;
      this.invert := invert;
      this.replaceblanks := replaceblanks;
      changeset := -1;
      outdatasets := map[];
    }

    /** The cache holds the recomputation for the document's current contents whenever its stamp is current. */
    ghost predicate CacheValid(doc: Document, evaluate: Evaluator)
      reads this, doc
    {
      Stamped(changeset, outdatasets, doc.changeset,
              Recomputed(evaluate(doc.data), invert, replaceblanks, indatasets, doc.Sources()))
    }

    /** One column: copy the first `|filterarr|` entries, then blank the false positions in place, or keep the true ones. */
    method FilterColumn(col: seq<Cell>, filterarr: seq<bool>) returns (r: seq<Cell>)
      requires |filterarr| <= |col|
      ensures r == ColumnFiltered(col, filterarr, replaceblanks)
    {
      var filtered := new Cell[|filterarr|](i requires 0 <= i < |filterarr| => col[i]);
      if replaceblanks {
        for i := 0 to filtered.Length
          invariant forall k :: 0 <= k < i ==> filtered[k] == if filterarr[k] then col[k] else Missing
          invariant forall k :: i <= k < filtered.Length ==> filtered[k] == col[k]
        {
          if !filterarr[i] {
            filtered[i] := Missing;
          }
        }
        r := filtered[..];
      } else {
        r := Selection.Select(filtered[..], filterarr);
        assert filtered[..] == col[..|filterarr|];
        SelectPrefix(col, filterarr);
      }
    }

    /** `filterNumeric`: each column of the dataset filtered alike; a None column stays None. */
    method FilterNumeric(ds: Dataset, filterarr: seq<bool>) returns (r: Dataset)
      requires ds.Numeric? && ds.Wf() && |filterarr| <= |ds.data|
      ensures r == NumericFiltered(ds, filterarr, replaceblanks)
    {
      ghost var expected := NumericFiltered(ds, filterarr, replaceblanks);
      var data := FilterColumn(ds.data, filterarr);
      var errors: seq<Option<seq<Cell>>> := [];
      for j := 0 to |ds.errors|
        invariant errors == expected.errors[..j]
      {
        var filtered: Option<seq<Cell>> := None;
        if ds.errors[j].Some? {
          var c := FilterColumn(ds.errors[j].value, filterarr);
          filtered := Some(c);
        }
        assert filtered == expected.errors[j];
        errors := errors + [filtered];
      }
      assert errors == expected.errors;
      r := Numeric(data, errors);
    }

    /**
     * The body of the loop of `checkUpdate` for one source name: a source that is
     * missing or not 1-D, or of another datatype than numeric or text, is skipped
     * with a diagnostic; otherwise source and filter are cut to the shorter length
     * and the source is filtered.
     */
    method FilterOne(name: string, ds: Option<WfDataset>, filterarr: seq<bool>)
      returns (filtered: Option<Dataset>, diagnostic: Option<Diagnostic>)
      ensures filtered == FilterSource(ds, filterarr, replaceblanks)
      ensures diagnostic == SourceDiagnostic(name, ds)
      ensures filtered.Some? <==> diagnostic.None?
    {
      if ds.None? || ds.value.Dimensions() != 1 {
        return None, Some(SourceNotOneDim(name));
      }
      var minlen := Min(ds.value.Length(), |filterarr|);
      var filterarrchop := filterarr[..minlen];
      if ds.value.Numeric? {
        var r := FilterNumeric(ds.value, filterarrchop);
        filtered, diagnostic := Some(r), None;
      } else if ds.value.Text? {
        filtered, diagnostic := Some(Text(FilterText(ds.value.text, filterarrchop, replaceblanks))), None;
      } else {
        filtered, diagnostic := None, Some(CannotFilter(name));
      }
    }

    /**
     * `checkUpdate`: nothing happens while the document has not changed since the
     * last refresh; otherwise the outputs are recomputed from scratch. Either way
     * a cache that was valid is now the recomputation for the current contents.
     */
    method CheckUpdate(doc: Document, evaluate: Evaluator)
      modifies this, doc`log
      ensures changeset == doc.changeset
      ensures old(changeset) == doc.changeset ==>
        outdatasets == old(outdatasets) && doc.log == old(doc.log)
      ensures old(changeset) != doc.changeset ==>
        && outdatasets == Recomputed(evaluate(doc.data), invert, replaceblanks, indatasets, doc.Sources())
        && doc.log == old(doc.log) + RefreshLog(inexpr, evaluate(doc.data), invert, indatasets, doc.Sources())
      ensures old(changeset) != doc.changeset || old(CacheValid(doc, evaluate)) ==>
        CacheValid(doc, evaluate)
        && outdatasets == Recomputed(evaluate(doc.data), invert, replaceblanks, indatasets, doc.Sources())
    {
      if doc.changeset == changeset {
        return;
      }
      changeset := doc.changeset;
      outdatasets := map[];

      var evaluated := evaluate(doc.data);

      if evaluated.None? {
        return;
      }
      var d := evaluated.value;
      if d.Dimensions() != 1 {
        doc.Log(FilterDimensions(inexpr));
        return;
      }
      if d.Datatype() != NumericData {
        doc.Log(FilterNotNumeric(inexpr));
        return;
      }
      var filterarr := FilterArray(d.data, invert);
      FilterSources(doc, filterarr);
    }

    /**
     * The loop of `checkUpdate` over the source names: each source is filtered
     * into `outdatasets`, or skipped with a diagnostic, independently of the others.
     */
    method FilterSources(doc: Document, filterarr: seq<bool>)
      requires outdatasets == map[]
      modifies this`outdatasets, doc`log
      ensures outdatasets == Outputs(indatasets, doc.Sources(), filterarr, replaceblanks)
      ensures doc.log == old(doc.log) + SourceLog(indatasets, doc.Sources())
    {
      ghost var sources := doc.Sources();
      for i := 0 to |indatasets|
        invariant doc.data == old(doc.data)
        invariant outdatasets == Outputs(indatasets[..i], sources, filterarr, replaceblanks)
        invariant doc.log == old(doc.log) + SourceLog(indatasets[..i], sources)
      {
        FilterStep(doc, i, filterarr, sources, old(doc.log));
      }
      assert indatasets[..|indatasets|] == indatasets;
    }

    /** One pass of the loop of `checkUpdate`: the filtered copy of source `i` is stored, or its diagnostic logged. */
    method FilterStep(doc: Document, i: nat, filterarr: seq<bool>, ghost sources: map<string, WfDataset>,
                      ghost log0: seq<Diagnostic>)
      requires i < |indatasets| && sources == doc.Sources()
      requires outdatasets == Outputs(indatasets[..i], sources, filterarr, replaceblanks)
      requires doc.log == log0 + SourceLog(indatasets[..i], sources)
      modifies this`outdatasets, doc`log
      ensures outdatasets == Outputs(indatasets[..i + 1], sources, filterarr, replaceblanks)
      ensures doc.log == log0 + SourceLog(indatasets[..i + 1], sources)
    {
      var name := indatasets[i];
      var ds := SourceOf(Get(doc.data, name));
      assert ds == Get(sources, name);
      var filtered, diagnostic := FilterOne(name, ds, filterarr);
      OutputsStep(indatasets, i, sources, filterarr, replaceblanks, filtered);
      LogStep(indatasets, i, sources, diagnostic);
      if diagnostic.Some? {
        doc.Log(diagnostic.value);
        assert log0 + SourceLog(indatasets[..i + 1], sources) == old(doc.log) + [diagnostic.value];
      }
      if filtered.Some? {
        outdatasets := outdatasets[name := filtered.value];
      }
    }

    /** The loop of `saveToFile`: the source names of this generator's datasets, in output-name order. */
    method BoundSourceNames(doc: Document) returns (names: seq<string>)
      ensures names == BoundNames(doc.data, this)
    {
      var keys := SortedNames(doc.data.Keys);
      names := [];
      for i := 0 to |keys|
        invariant names == BoundNamesIn(doc.data, keys[..i], this)
      {
        BoundNamesSnoc(doc.data, keys, i, this);
        var ds := doc.data[keys[i]];
        if ds.Filtered? && ds.facade.generator == this {
          names := names + [ds.facade.namein];
        }
      }
      assert keys[..|keys|] == keys;
    }

    /** Appending a keyword argument only when its value differs from the default. */
    static method AppendIf(args: seq<SaveFormat.Arg>, present: bool, key: string, v: SaveFormat.Value)
      returns (r: seq<SaveFormat.Arg>)
      ensures r == args + SaveFormat.OptionalArg(present, key, v)
    {
      r := args;
      if present {
        r := r + [SaveFormat.Keyword(key, v)];
      }
    }

    /** `saveToFile`: one statement naming the sources of this generator's datasets still in the document. */
    method SaveToFile(doc: Document) returns (line: string)
      ensures line == SavedStatement(this, doc.data)
    {
      var names := BoundSourceNames(doc);
      var args := [SaveFormat.Positional(SaveFormat.Str(inexpr)), SaveFormat.Positional(SaveFormat.StrList(names))];
      args := AppendIf(args, prefix != "", "prefix", SaveFormat.Str(prefix));
      args := AppendIf(args, suffix != "", "suffix", SaveFormat.Str(suffix));
      args := AppendIf(args, invert, "invert", SaveFormat.Flag(true));
      args := AppendIf(args, replaceblanks, "replaceblanks", SaveFormat.Flag(true));
      SaveFormat.SaveArgsAppended(SaveFormat.FilterCall(inexpr, names, prefix, suffix, invert, replaceblanks));
      line := SaveFormat.Statement(args);
    }
  }

  /** One more pass of the loop over the source names adds that name's output, if any. */
  lemma OutputsStep(names: seq<string>, i: nat, sources: map<string, WfDataset>, mask: seq<bool>, replaceblanks: bool,
                    filtered: Option<Dataset>)
    requires i < |names| && filtered == FilterSource(Get(sources, names[i]), mask, replaceblanks)
    ensures Outputs(names[..i + 1], sources, mask, replaceblanks) ==
      if filtered.Some? then Outputs(names[..i], sources, mask, replaceblanks)[names[i] := filtered.value]
      else Outputs(names[..i], sources, mask, replaceblanks)
  {
    assert names[..i + 1][..i] == names[..i];
  }

  /** One more pass of the loop over the source names adds that name's diagnostic, if any. */
  lemma LogStep(names: seq<string>, i: nat, sources: map<string, WfDataset>, diagnostic: Option<Diagnostic>)
    requires i < |names| && diagnostic == SourceDiagnostic(names[i], Get(sources, names[i]))
    ensures SourceLog(names[..i + 1], sources) ==
      if diagnostic.Some? then SourceLog(names[..i], sources) + [diagnostic.value] else SourceLog(names[..i], sources)
  {
    assert names[..i + 1][..i] == names[..i];
  }

  /** Selecting from the first `|mask|` entries is selecting from the whole column. */
  lemma SelectPrefix(col: seq<Cell>, mask: seq<bool>)
    requires |mask| <= |col|
    ensures Selection.Select(col[..|mask|], mask) == Selection.Select(col, mask)
  {
  }

  /** What a filtered dataset shows for a generator's outputs: its source's output, or an empty dataset. */
  function OutputOrEmpty(outdatasets: map<string, Dataset>, namein: string): (r: Dataset)
    ensures namein in outdatasets ==> r == outdatasets[namein]
    ensures namein !in outdatasets ==> r == EmptyDataset()
  {
    match Get(outdatasets, namein)
    case None => EmptyDataset()
    case Some(ds) => ds
  }

  /** A dataset whose contents are a source dataset filtered by the shared generator. */
  class DatasetFiltered {
    const generator: FilterGenerator
    const namein: string
    const document: Document
    var changeset: int
    var internal: Option<Dataset>

    /** The cached dataset is present once the facade has refreshed. */
    predicate Valid()
      reads this
    {
      internal.None? ==> changeset == -1
    }

    constructor (gen: FilterGenerator, name: string, doc: Document)
      ensures generator == gen && namein == name && document == doc
      ensures changeset == -1 && internal == None && Valid()
    {
      generator := gen;
      namein := name;
      document := doc;
      changeset := -1;
      internal := None;
    }

    /** The cached dataset is this source's output of a recomputation for the document's current contents whenever its stamp is current. */
    ghost predicate CacheValid(evaluate: Evaluator)
      reads this, document
    {
      Stamped(changeset, internal, document.changeset,
              Some(OutputOrEmpty(Recomputed(evaluate(document.data), generator.invert, generator.replaceblanks,
                                            generator.indatasets, document.Sources()), namein)))
    }

    /**
     * `_checkUpdate`: refresh only when the document changed since the last
     * refresh, asking the generator (which recomputes only if it is stale too).
     * With valid caches, the cached dataset is then current with the document's contents.
     */
    method CheckUpdate(evaluate: Evaluator)
      requires Valid()
      modifies this, generator, document`log
      ensures Valid() && changeset == document.changeset
      ensures old(changeset) == document.changeset ==>
        internal == old(internal) && unchanged(generator) && document.log == old(document.log)
      ensures old(CacheValid(evaluate)) && old(generator.CacheValid(document, evaluate)) ==>
        CacheValid(evaluate) && generator.CacheValid(document, evaluate)
      ensures old(changeset) != document.changeset ==>
        && generator.changeset == document.changeset
        && internal == Some(OutputOrEmpty(generator.outdatasets, namein))
        && (old(generator.changeset) == document.changeset ==>
              generator.outdatasets == old(generator.outdatasets) && document.log == old(document.log))
        && (old(generator.changeset) != document.changeset ==>
              && generator.outdatasets == Recomputed(evaluate(document.data), generator.invert, generator.replaceblanks,
                                                     generator.indatasets, document.Sources())
              && document.log == old(document.log) + RefreshLog(generator.inexpr, evaluate(document.data), generator.invert,
                                                                generator.indatasets, document.Sources()))
    {
      if document.changeset != changeset {
        generator.CheckUpdate(document, evaluate);
        changeset := document.changeset;
        var ds := Get(generator.outdatasets, namein);
        if ds.None? {
          internal := Some(EmptyDataset());
        } else {
          internal := ds;
        }
      }
    }

    /** `linkedInformation`: the provenance text, naming the source dataset and then the filter expression. */
    function LinkedInformation(): (s: string)
      ensures |s| == |namein| + |generator.inexpr| + 20
      ensures s[10..10 + |namein|] == namein
      ensures s[|s| - 1 - |generator.inexpr|..|s| - 1] == generator.inexpr
    {
      "Filtered '" + namein + "' using '" + generator.inexpr + "'"
    }

    /** Reading the dataset (what attribute lookup does): refresh, then hand out the cached dataset. */
    method Current(evaluate: Evaluator) returns (ds: Dataset)
      requires Valid()
      modifies this, generator, document`log
      ensures Valid() && internal == Some(ds) && changeset == document.changeset
      ensures old(changeset) == document.changeset ==> ds == old(internal).value && unchanged(generator)
      ensures old(changeset) == document.changeset ==> document.log == old(document.log)
      ensures old(changeset) != document.changeset ==>
        && ds == OutputOrEmpty(generator.outdatasets, namein)
        && generator.changeset == document.changeset
        && (old(generator.changeset) == document.changeset ==>
              generator.outdatasets == old(generator.outdatasets) && document.log == old(document.log))
        && (old(generator.changeset) != document.changeset ==>
              && generator.outdatasets == Recomputed(evaluate(document.data), generator.invert, generator.replaceblanks,
                                                     generator.indatasets, document.Sources())
              && document.log == old(document.log) + RefreshLog(generator.inexpr, evaluate(document.data), generator.invert,
                                                                generator.indatasets, document.Sources()))
      ensures old(CacheValid(evaluate)) && old(generator.CacheValid(document, evaluate)) ==>
        && CacheValid(evaluate) && generator.CacheValid(document, evaluate)
        && ds == OutputOrEmpty(Recomputed(evaluate(document.data), generator.invert, generator.replaceblanks,
                                          generator.indatasets, document.Sources()), namein)
    {
      CheckUpdate(evaluate);
      ds := internal.value;
    }

    /** `saveToFile`: write the generator's statement only if this is its first dataset in name order. */
    method SaveToFile() returns (line: Option<string>)
      ensures line.Some? <==> FirstBound(document.data, SortedKeys(document.data.Keys), generator) == Some(this)
      ensures line.Some? ==> line.value == SavedStatement(generator, document.data)
    {
      var keys := SortedNames(document.data.Keys);
      var am1st := false;
      var i := 0;
      while i < |keys|
        invariant 0 <= i <= |keys|
        invariant FirstBound(document.data, keys, generator) == FirstBound(document.data, keys[i..], generator)
      {
        var ds := document.data[keys[i]];
        if ds == Filtered(this) {
          am1st := true;
          break;
        } else if ds.Filtered? && ds.facade.generator == generator {
          break;
        }
        assert keys[i..][1..] == keys[i + 1..];
        i := i + 1;
      }
      if am1st {
        var s := generator.SaveToFile(document);
        line := Some(s);
      } else {
        line := None;
      }
    }
  }

  /** The name a filtered dataset is stored under. */
  function OutputName(prefix: string, name: string, suffix: string): string
  {
    prefix + name + suffix
  }

  function OutputNames(prefix: string, names: seq<string>, suffix: string): (r: seq<string>)
    ensures |r| == |names| && forall i :: 0 <= i < |names| ==> r[i] == OutputName(prefix, names[i], suffix)
  {
    seq(|names|, i requires 0 <= i < |names| => OutputName(prefix, names[i], suffix))
  }

  predicate Distinct(names: seq<string>)
  {
    forall i, j :: 0 <= i < j < |names| ==> names[i] != names[j]
  }

  /** What a slot held before the operation: its dataset, or None if the name was unbound. */
  function Recorded(before: map<string, Entry>, outnames: seq<string>): (r: map<string, Option<Entry>>)
    ensures r.Keys == set o | o in outnames
    ensures forall o :: o in r ==> r[o] == Get(before, o)
  {
    map o | o in outnames :: Get(before, o)
  }

  /** The dictionary after undoing: each recorded slot gets back its dataset, or is removed if it had none. */
  function Restored(current: map<string, Entry>, saved: map<string, Option<Entry>>): (r: map<string, Entry>)
    ensures forall n :: n in saved ==> (n in r <==> saved[n].Some?) && (n in r ==> r[n] == saved[n].value)
    ensures forall n :: n !in saved ==> (n in r <==> n in current) && (n in r ==> r[n] == current[n])
  {
    map n | n in current.Keys + saved.Keys && (n in saved ==> saved[n].Some?) ::
      if n in saved then saved[n].value else current[n]
  }

  /** The recorded slots already handled when `pending` remain. */
  function Done(saved: map<string, Option<Entry>>, pending: set<string>): (r: map<string, Option<Entry>>)
    ensures r.Keys == saved.Keys - pending
    ensures forall n :: n in r ==> r[n] == saved[n]
  {
    map n | n in saved && n !in pending :: saved[n]
  }

  lemma RestoreStep(base: map<string, Entry>, saved: map<string, Option<Entry>>, pending: set<string>, name: string)
    requires name in pending && pending <= saved.Keys
    ensures Restored(base, Done(saved, pending - {name})) ==
      if saved[name].None? then Restored(base, Done(saved, pending)) - {name}
      else Restored(base, Done(saved, pending))[name := saved[name].value]
  {
    var d, d' := Done(saved, pending), Done(saved, pending - {name});
    assert d' == d[name := saved[name]];
    var a := Restored(base, d');
    var b := Restored(base, d);
    var b' := if saved[name].None? then b - {name} else b[name := saved[name].value];
    forall n
      ensures (n in a <==> n in b') && (n in a ==> a[n] == b'[n])
    {
    }
    assert a == b';
  }

  datatype ConfigError = PrefixAndSuffixEmpty

  /** `undo` before any `do`: the attribute `olddatasets` does not exist yet (an AttributeError). */
  datatype UndoError = NoOldDatasets

  /** The undoable operation that creates filtered datasets named `prefix + name + suffix`. */
  class OperationDatasetsFilter {
    const inexpr: string
    const indatasets: seq<string>
    const prefix: string
    const suffix: string
    const invert: bool
    const replaceblanks: bool
    var olddatasets: map<string, Option<Entry>>
    /** Whether `do` has run, so that `olddatasets` exists. */
    var recorded: bool
    /** The generator the last `Do` shared among its datasets. */
    ghost var generator: FilterGenerator?

    constructor (inexpr: string, indatasets: seq<string>, prefix: string, suffix: string,
                 invert: bool, replaceblanks: bool)
      requires prefix != "" || suffix != ""
      ensures this.inexpr == inexpr && this.indatasets == indatasets
      ensures this.prefix == prefix && this.suffix == suffix
      ensures this.invert == invert && this.replaceblanks == replaceblanks
      ensures !recorded && olddatasets == map[] && generator == null
    {
      this.inexpr := inexpr;
      this.indatasets := indatasets;
      this.prefix := prefix;
      this.suffix := suffix;
      this.invert := invert;
      this.replaceblanks := replaceblanks;
      olddatasets := map[];
      recorded := false;
      generator := null;
    }

    /** Constructing the operation: refused, before anything else happens, when both prefix and suffix are empty. */
    static method Create(inexpr: string, indatasets: seq<string>, prefix: string, suffix: string,
                         invert: bool, replaceblanks: bool)
      returns (r: Result<OperationDatasetsFilter, ConfigError>)
      ensures r.Failure? <==> prefix == "" && suffix == ""
      ensures r.Success? ==>
        && fresh(r.value)
        && r.value.inexpr == inexpr && r.value.indatasets == indatasets
        && r.value.prefix == prefix && r.value.suffix == suffix
        && r.value.invert == invert && r.value.replaceblanks == replaceblanks
    {
      if prefix == "" && suffix == "" {
        return Failure(PrefixAndSuffixEmpty);
      }
      var op := new OperationDatasetsFilter(inexpr, indatasets, prefix, suffix, invert, replaceblanks);
      r := Success(op);
    }

    /** One pass of the loop of `do`: remember what the output slot of `name` holds, then bind a new filtered dataset there. */
    method BindOne(doc: Document, gen: FilterGenerator, name: string) returns (facade: DatasetFiltered)
      modifies this`olddatasets, doc`data, doc`changeset
      ensures olddatasets == old(olddatasets)[OutputName(prefix, name, suffix) := Get(old(doc.data), OutputName(prefix, name, suffix))]
      ensures doc.data == old(doc.data)[OutputName(prefix, name, suffix) := Filtered(facade)]
      ensures doc.changeset == old(doc.changeset) + 1
      ensures fresh(facade) && facade.Valid() && facade.changeset == -1
      ensures facade.generator == gen && facade.namein == name && facade.document == doc
    {
      var outname := prefix + name + suffix;
      olddatasets := olddatasets[outname := Get(doc.data, outname)];
      facade := new DatasetFiltered(gen, name, doc);
      doc.SetData(outname, Filtered(facade));
    }

    /**
     * `do`: one new generator; for every input name, remember what its output slot
     * held and bind a new filtered dataset there. Returns the generator's outputs,
     * which nothing has computed yet.
     */
    method Do(doc: Document) returns (out: map<string, Dataset>)
      modifies this, doc`data, doc`changeset
      ensures out == map[] && recorded
      ensures generator != null && fresh(generator) && generator.changeset == -1
      ensures generator.inexpr == inexpr && generator.indatasets == indatasets
      ensures generator.prefix == prefix && generator.suffix == suffix
      ensures generator.invert == invert && generator.replaceblanks == replaceblanks
      ensures doc.changeset == old(doc.changeset) + |indatasets|
      ensures doc.data.Keys == old(doc.data).Keys + set o | o in OutputNames(prefix, indatasets, suffix)
      ensures forall n :: n in old(doc.data) && n !in OutputNames(prefix, indatasets, suffix) ==> doc.data[n] == old(doc.data)[n]
      ensures forall i :: 0 <= i < |indatasets| ==>
        var e := doc.data[OutputName(prefix, indatasets[i], suffix)];
        && e.Filtered? && fresh(e.facade) && e.facade.Valid() && e.facade.changeset == -1
        && e.facade.generator == generator && e.facade.namein == indatasets[i] && e.facade.document == doc
      ensures olddatasets.Keys == set o | o in OutputNames(prefix, indatasets, suffix)
      ensures Distinct(indatasets) ==> olddatasets == Recorded(old(doc.data), OutputNames(prefix, indatasets, suffix))
    {
      var gen := new FilterGenerator(inexpr, indatasets, prefix, suffix, invert, replaceblanks);
      generator := gen;
      olddatasets := map[];
      recorded := true;
      BindAll(doc, gen);
      out := gen.outdatasets;
    }

    /** The loop of `do`: every input name gets a filtered dataset in its output slot, whose old contents are recorded. */
    method BindAll(doc: Document, gen: FilterGenerator)
      requires olddatasets == map[]
      modifies this`olddatasets, doc`data, doc`changeset
      ensures doc.changeset == old(doc.changeset) + |indatasets|
      ensures doc.data.Keys == old(doc.data).Keys + set o | o in OutputNames(prefix, indatasets, suffix)
      ensures forall n :: n in old(doc.data) && n !in OutputNames(prefix, indatasets, suffix) ==> doc.data[n] == old(doc.data)[n]
      ensures forall i :: 0 <= i < |indatasets| ==>
        var e := doc.data[OutputName(prefix, indatasets[i], suffix)];
        && e.Filtered? && fresh(e.facade) && e.facade.Valid() && e.facade.changeset == -1
        && e.facade.generator == gen && e.facade.namein == indatasets[i] && e.facade.document == doc
      ensures olddatasets.Keys == set o | o in OutputNames(prefix, indatasets, suffix)
      ensures Distinct(indatasets) ==> olddatasets == Recorded(old(doc.data), OutputNames(prefix, indatasets, suffix))
    {
      ghost var made: set<DatasetFiltered> := {};
      for i := 0 to |indatasets|
        invariant doc.changeset == old(doc.changeset) + i
        invariant Binding(old(doc.data), doc.data, olddatasets, prefix, indatasets, suffix, i, gen, doc, made)
        invariant forall f :: f in made ==> fresh(f) && f.changeset == -1 && f.Valid()
      {
        var name := indatasets[i];
        ghost var data0, recorded0 := doc.data, olddatasets;
        var facade := BindOne(doc, gen, name);
        BindingStep(old(doc.data), data0, recorded0, prefix, indatasets, suffix, i, gen, doc, made, facade);
        made := made + {facade};
      }
      BindingDone(old(doc.data), doc.data, olddatasets, prefix, indatasets, suffix, gen, doc, made);
    }

    /** `undo`: give every recorded slot back its old dataset, or remove it if it had none. */
    method Undo(doc: Document) returns (r: Result<(), UndoError>)
      modifies doc`data, doc`changeset
      ensures r.Failure? <==> !recorded
      ensures !recorded ==> doc.data == old(doc.data) && doc.changeset == old(doc.changeset)
      ensures recorded ==> doc.data == Restored(old(doc.data), olddatasets)
      ensures recorded ==> doc.changeset == old(doc.changeset) + |olddatasets.Keys|
    {
      if !recorded {
        return Failure(NoOldDatasets);
      }
      RestoreAll(doc);
      r := Success(());
    }

    /** The loop of `undo`: every recorded slot gets back its old contents, or is removed if it had none. */
    method RestoreAll(doc: Document)
      modifies doc`data, doc`changeset
      ensures doc.data == Restored(old(doc.data), olddatasets)
      ensures doc.changeset == old(doc.changeset) + |olddatasets.Keys|
    {
      var pending := olddatasets.Keys;
      while pending != {}
        invariant pending <= olddatasets.Keys
        invariant doc.data == Restored(old(doc.data), Done(olddatasets, pending))
        invariant doc.changeset + |pending| == old(doc.changeset) + |olddatasets.Keys|
        decreases pending
      {
        var name :| name in pending;
        RestoreStep(old(doc.data), olddatasets, pending, name);
        var val := olddatasets[name];
        if val.None? {
          doc.DeleteData(name);
        } else {
          doc.SetData(name, val.value);
        }
        pending := pending - {name};
      }
      assert Done(olddatasets, pending) == olddatasets;
    }
  }

  /**
   * What `do` keeps true of the dictionary while it binds: the slots in `touched`
   * are added, nothing else changes, and `recorded` holds one entry per touched
   * slot, which is the slot's original contents while no slot is bound twice.
   */
  ghost predicate Recording(before: map<string, Entry>, data: map<string, Entry>,
                            recorded: map<string, Option<Entry>>, touched: set<string>, distinct: bool)
  {
    && data.Keys == before.Keys + touched
    && (forall n :: n in before && n !in touched ==> data[n] == before[n])
    && recorded.Keys == touched
    && (distinct ==> forall o :: o in recorded ==> recorded[o] == Get(before, o))
  }

  lemma RecordStep(before: map<string, Entry>, data: map<string, Entry>, recorded: map<string, Option<Entry>>,
                   touched: set<string>, distinct: bool, name: string, e: Entry)
    requires Recording(before, data, recorded, touched, distinct)
    requires distinct ==> name !in touched
    ensures Recording(before, data[name := e], recorded[name := Get(data, name)], touched + {name}, distinct)
  {
  }

  /** The first `n` output slots hold filtered datasets, made in `made`, of the matching sources. */
  ghost predicate BoundAt(data: map<string, Entry>, outnames: seq<string>, names: seq<string>, n: nat,
                          gen: FilterGenerator, doc: Document, made: set<DatasetFiltered>)
    requires n <= |outnames| == |names|
  {
    forall k :: 0 <= k < n ==>
      && outnames[k] in data && data[outnames[k]].Filtered? && data[outnames[k]].facade in made
      && data[outnames[k]].facade.generator == gen && data[outnames[k]].facade.namein == names[k]
      && data[outnames[k]].facade.document == doc
  }

  /** What the loop of `do` keeps true after binding the first `n` input names. */
  ghost predicate Binding(before: map<string, Entry>, data: map<string, Entry>, recorded: map<string, Option<Entry>>,
                          prefix: string, names: seq<string>, suffix: string, n: nat,
                          gen: FilterGenerator, doc: Document, made: set<DatasetFiltered>)
    requires n <= |names|
  {
    var outnames := OutputNames(prefix, names, suffix);
    && Recording(before, data, recorded, (set o | o in outnames[..n]), Distinct(names))
    && BoundAt(data, outnames, names, n, gen, doc, made)
  }

  lemma BindingStep(before: map<string, Entry>, data: map<string, Entry>, recorded: map<string, Option<Entry>>,
                    prefix: string, names: seq<string>, suffix: string, i: nat,
                    gen: FilterGenerator, doc: Document, made: set<DatasetFiltered>, f: DatasetFiltered)
    requires i < |names| && Binding(before, data, recorded, prefix, names, suffix, i, gen, doc, made)
    requires f.generator == gen && f.namein == names[i] && f.document == doc
    ensures var outname := OutputName(prefix, names[i], suffix);
      Binding(before, data[outname := Filtered(f)], recorded[outname := Get(data, outname)],
              prefix, names, suffix, i + 1, gen, doc, made + {f})
  {
    var outnames := OutputNames(prefix, names, suffix);
    var outname := outnames[i];
    forall k | 0 <= k < i && outnames[k] == outname
      ensures names[k] == names[i]
    {
      OutputNameInjective(prefix, names[k], names[i], suffix);
    }
    var prev, next := outnames[..i], outnames[..i + 1];
    var touched := set o | o in prev;
    assert next == prev + [outname];
    assert (set o | o in next) == touched + {outname};
    RecordStep(before, data, recorded, touched, Distinct(names), outname, Filtered(f));
    BindStep(data, outnames, names, i, gen, doc, made, f);
  }

  lemma BindStep(data: map<string, Entry>, outnames: seq<string>, names: seq<string>, i: nat,
                 gen: FilterGenerator, doc: Document, made: set<DatasetFiltered>, f: DatasetFiltered)
    requires i < |outnames| == |names| && BoundAt(data, outnames, names, i, gen, doc, made)
    requires f.generator == gen && f.namein == names[i] && f.document == doc
    requires forall k :: 0 <= k < i && outnames[k] == outnames[i] ==> names[k] == names[i]
    ensures BoundAt(data[outnames[i] := Filtered(f)], outnames, names, i + 1, gen, doc, made + {f})
  {
  }

  /** Once every input name is bound, the loop of `do` has done what `do` promises of the dictionary. */
  lemma BindingDone(before: map<string, Entry>, data: map<string, Entry>, recorded: map<string, Option<Entry>>,
                    prefix: string, names: seq<string>, suffix: string,
                    gen: FilterGenerator, doc: Document, made: set<DatasetFiltered>)
    requires Binding(before, data, recorded, prefix, names, suffix, |names|, gen, doc, made)
    ensures data.Keys == before.Keys + set o | o in OutputNames(prefix, names, suffix)
    ensures forall n :: n in before && n !in OutputNames(prefix, names, suffix) ==> data[n] == before[n]
    ensures forall i :: 0 <= i < |names| ==>
      var e := data[OutputName(prefix, names[i], suffix)];
      && e.Filtered? && e.facade in made
      && e.facade.generator == gen && e.facade.namein == names[i] && e.facade.document == doc
    ensures recorded.Keys == set o | o in OutputNames(prefix, names, suffix)
    ensures Distinct(names) ==> recorded == Recorded(before, OutputNames(prefix, names, suffix))
  {
    var outnames := OutputNames(prefix, names, suffix);
    assert outnames[..|names|] == outnames;
  }

  /** Different input names give different output names. */
  lemma {:induction false} OutputNameInjective(prefix: string, a: string, b: string, suffix: string)
    requires OutputName(prefix, a, suffix) == OutputName(prefix, b, suffix)
    ensures a == b
  {
    var s := OutputName(prefix, a, suffix);
    assert |a| == |b|;
    assert a == s[|prefix|..|prefix| + |a|];
    assert b == s[|prefix|..|prefix| + |b|];
  }

  /**
   * Undoing after `do` gives back the dictionary as it was: every slot `do` bound
   * returns to its old dataset or is removed, and nothing else was touched.
   */
  lemma {:induction false} UndoRestoresDo(before: map<string, Entry>, after: map<string, Entry>, outnames: seq<string>)
    requires after.Keys == before.Keys + set o | o in outnames
    requires forall n :: n in before && n !in outnames ==> after[n] == before[n]
    ensures Restored(after, Recorded(before, outnames)) == before
  {
    var saved := Recorded(before, outnames);
    var r := Restored(after, saved);
    assert r.Keys == before.Keys;
  }

  /** Whenever some dataset of a generator is in the document, exactly one of them is the first, and it writes the statement. */
  /** In a sorted list of all the names, the first entry bound to `gen` has the least name among them. */
  lemma FirstBoundLeast(data: map<string, Entry>, ks: seq<string>, gen: FilterGenerator)
    requires forall k :: k in ks <==> k in data
    requires Sorted(ks) && FirstBound(data, ks, gen).Some?
    ensures exists k :: && k in data
                        && data[k] == Filtered(FirstBound(data, ks, gen).value)
                        && forall k' :: k' in data && BoundTo(data[k'], gen) && k' != k ==> Below(k, k')
  {
    var w := FirstBound(data, ks, gen).value;
    var i :| 0 <= i < |ks| && data[ks[i]] == Filtered(w) && forall j :: 0 <= j < i ==> !BoundTo(data[ks[j]], gen);
    forall k' | k' in data && BoundTo(data[k'], gen) && k' != ks[i]
      ensures Below(ks[i], k')
    {
      var j :| 0 <= j < |ks| && ks[j] == k';
      assert BoundTo(data[ks[j]], gen) && j != i;
      assert Below(ks[i], ks[j]);
    }
    assert ks[i] in data;
  }

  /**
   * While a dataset of `gen` remains, the one that writes its statement is the
   * dataset of `gen` with the least name, so exactly one statement is written.
   */
  lemma OneStatementPerGenerator(data: map<string, Entry>, gen: FilterGenerator, f: DatasetFiltered)
    requires f.generator == gen
    requires Filtered(f) in data.Values
    ensures FirstBound(data, SortedKeys(data.Keys), gen).Some?
    ensures exists k :: && k in data
                        && data[k] == Filtered(FirstBound(data, SortedKeys(data.Keys), gen).value)
                        && forall k' :: k' in data && BoundTo(data[k'], gen) && k' != k ==> Below(k, k')
  {
    var ks := SortedKeys(data.Keys);
    var k :| k in data && data[k] == Filtered(f);
    assert k in ks && BoundTo(data[k], gen);
    FirstBoundLeast(data, ks, gen);
  }
}
