/**
 * The statement a filter generator writes when the document is saved:
 * `FilterDatasets(<expr>, [<names>], prefix=..., suffix=..., invert=True, replaceblanks=True)`.
 * It is built as a list of arguments first, and replaying that list with the
 * call's defaults gives back the generator's parameters.
 */
module SaveFormat {
  import opened Wrappers

  datatype Value = Str(s: string) | StrList(items: seq<string>) | Flag(b: bool)

  datatype Arg = Positional(v: Value) | Keyword(key: string, v: Value)

  /** The parameters one FilterDatasets statement carries. */
  datatype FilterCall = FilterCall(inexpr: string, names: seq<string>, prefix: string, suffix: string,
                                   invert: bool, replaceblanks: bool)

  /** Position of each optional argument in the fixed keyword order; 4 for any other key. */
  function Rank(key: string): nat
  {
    if key == "prefix" then 0
    else if key == "suffix" then 1
    else if key == "invert" then 2
    else if key == "replaceblanks" then 3
    else 4
  }

  /** The value an optional argument takes when it is left out. */
  predicate IsDefault(v: Value)
  {
    v == Str("") || v == Flag(false)
  }

  function OptionalArg(present: bool, key: string, v: Value): seq<Arg>
  {
    if present then [Keyword(key, v)] else []
  }

  /** The optional arguments that differ from their defaults, in the fixed order. */
  function OptionalArgs(c: FilterCall): (kws: seq<Arg>)
    ensures |kws| <= 4
    ensures forall i :: 0 <= i < |kws| ==> kws[i].Keyword? && Rank(kws[i].key) < 4 && !IsDefault(kws[i].v)
  {
    OptionalArg(c.prefix != "", "prefix", Str(c.prefix))
    + OptionalArg(c.suffix != "", "suffix", Str(c.suffix))
    + OptionalArg(c.invert, "invert", Flag(true))
    + OptionalArg(c.replaceblanks, "replaceblanks", Flag(true))
  }

  /** The arguments written: the expression, the name list, then the optional arguments. */
  function SaveArgs(c: FilterCall): (args: seq<Arg>)
    ensures 2 <= |args| <= 6
    ensures args[0] == Positional(Str(c.inexpr)) && args[1] == Positional(StrList(c.names))
    ensures forall i :: 2 <= i < |args| ==> args[i].Keyword? && Rank(args[i].key) < 4 && !IsDefault(args[i].v)
  {
    [Positional(Str(c.inexpr)), Positional(StrList(c.names))] + OptionalArgs(c)
  }

  /** The saved arguments, as appended one optional argument at a time. */
  lemma SaveArgsAppended(c: FilterCall)
    ensures SaveArgs(c) == [Positional(Str(c.inexpr)), Positional(StrList(c.names))]
      + OptionalArg(c.prefix != "", "prefix", Str(c.prefix))
      + OptionalArg(c.suffix != "", "suffix", Str(c.suffix))
      + OptionalArg(c.invert, "invert", Flag(true))
      + OptionalArg(c.replaceblanks, "replaceblanks", Flag(true))
  {
    var head := [Positional(Str(c.inexpr)), Positional(StrList(c.names))];
    var p := OptionalArg(c.prefix != "", "prefix", Str(c.prefix));
    var s := OptionalArg(c.suffix != "", "suffix", Str(c.suffix));
    var inv := OptionalArg(c.invert, "invert", Flag(true));
    var rb := OptionalArg(c.replaceblanks, "replaceblanks", Flag(true));
    assert head + (p + s + inv + rb) == head + p + s + inv + rb;
  }

  /** Optional arguments appear in the order prefix, suffix, invert, replaceblanks. */
  lemma SavedKeywordOrder(c: FilterCall)
    ensures forall i, j :: 2 <= i < j < |SaveArgs(c)| ==> Rank(SaveArgs(c)[i].key) < Rank(SaveArgs(c)[j].key)
  {
    var kws := OptionalArgs(c);
    assert SaveArgs(c)[2..] == kws;
    var p := OptionalArg(c.prefix != "", "prefix", Str(c.prefix));
    var s := OptionalArg(c.suffix != "", "suffix", Str(c.suffix));
    var inv := OptionalArg(c.invert, "invert", Flag(true));
    var rb := OptionalArg(c.replaceblanks, "replaceblanks", Flag(true));
    forall i, j | 0 <= i < j < |kws|
      ensures Rank(kws[i].key) < Rank(kws[j].key)
    {
      assert kws == p + s + inv + rb;
      RankAt(p, s, inv, rb, i);
      RankAt(p, s, inv, rb, j);
    }
  }

  lemma RankAt(p: seq<Arg>, s: seq<Arg>, inv: seq<Arg>, rb: seq<Arg>, i: nat)
    requires |p| <= 1 && |s| <= 1 && |inv| <= 1 && |rb| <= 1
    requires p != [] ==> p[0].Keyword? && p[0].key == "prefix"
    requires s != [] ==> s[0].Keyword? && s[0].key == "suffix"
    requires inv != [] ==> inv[0].Keyword? && inv[0].key == "invert"
    requires rb != [] ==> rb[0].Keyword? && rb[0].key == "replaceblanks"
    requires i < |p + s + inv + rb|
    ensures (p + s + inv + rb)[i].Keyword?
    ensures Rank((p + s + inv + rb)[i].key) ==
      if i < |p| then 0 else if i < |p| + |s| then 1 else if i < |p| + |s| + |inv| then 2 else 3
  {
  }

  /** Applying keyword arguments over a call's parameters; an unknown keyword or a value of the wrong kind is refused. */
  function BindKeywords(c: FilterCall, kws: seq<Arg>): Option<FilterCall>
    decreases |kws|
  {
    if kws == [] then Some(c)
    else match kws[0]
      case Positional(_) => None
      case Keyword(k, v) =>
        if k == "prefix" && v.Str? then BindKeywords(c.(prefix := v.s), kws[1..])
        else if k == "suffix" && v.Str? then BindKeywords(c.(suffix := v.s), kws[1..])
        else if k == "invert" && v.Flag? then BindKeywords(c.(invert := v.b), kws[1..])
        else if k == "replaceblanks" && v.Flag? then BindKeywords(c.(replaceblanks := v.b), kws[1..])
        else None
  }

  predicate DistinctKeys(kws: seq<Arg>)
  {
    forall i, j :: 0 <= i < j < |kws| && kws[i].Keyword? && kws[j].Keyword? ==> kws[i].key != kws[j].key
  }

  /**
   * The parameters a replayed statement produces, as a call with the signature
   * `(inexpr, indatasets, prefix="", suffix="", invert=False, replaceblanks=False)`
   * binds them; a repeated keyword is refused.
   */
  function Replay(args: seq<Arg>): Option<FilterCall>
  {
    if |args| < 2 || !DistinctKeys(args[2..]) then None
    else match (args[0], args[1])
      case (Positional(Str(e)), Positional(StrList(ns))) =>
        BindKeywords(FilterCall(e, ns, "", "", false, false), args[2..])
      case _ => None
  }

  lemma {:induction false} BindAppend(c: FilterCall, a: seq<Arg>, b: seq<Arg>)
    requires BindKeywords(c, a).Some?
    ensures BindKeywords(c, a + b) == BindKeywords(BindKeywords(c, a).value, b)
    decreases |a|
  {
    if a == [] {
      assert a + b == b;
    } else {
      assert (a + b)[1..] == a[1..] + b;
      match a[0]
      case Keyword(k, v) =>
        if k == "prefix" && v.Str? {
          BindAppend(c.(prefix := v.s), a[1..], b);
        } else if k == "suffix" && v.Str? {
          BindAppend(c.(suffix := v.s), a[1..], b);
        } else if k == "invert" && v.Flag? {
          BindAppend(c.(invert := v.b), a[1..], b);
        } else {
          BindAppend(c.(replaceblanks := v.b), a[1..], b);
        }
    }
  }

  /** Nothing is lost by leaving the default arguments out: replaying the saved arguments gives the same parameters. */
  lemma {:induction false} ReplaySaved(c: FilterCall)
    ensures Replay(SaveArgs(c)) == Some(c)
  {
    var args := SaveArgs(c);
    var p := OptionalArg(c.prefix != "", "prefix", Str(c.prefix));
    var s := OptionalArg(c.suffix != "", "suffix", Str(c.suffix));
    var inv := OptionalArg(c.invert, "invert", Flag(true));
    var rb := OptionalArg(c.replaceblanks, "replaceblanks", Flag(true));
    assert args[2..] == p + s + inv + rb;
    SavedKeywordOrder(c);
    assert DistinctKeys(args[2..]) by {
      forall i, j | 0 <= i < j < |args[2..]|
        ensures args[2..][i].key != args[2..][j].key
      {
        assert args[2..][i] == args[i + 2] && args[2..][j] == args[j + 2];
      }
    }
    var c0 := FilterCall(c.inexpr, c.names, "", "", false, false);
    var c1 := c0.(prefix := c.prefix);
    var c2 := c1.(suffix := c.suffix);
    var c3 := c2.(invert := c.invert);
    assert BindKeywords(c0, p) == Some(c1);
    assert BindKeywords(c1, s) == Some(c2);
    assert BindKeywords(c2, inv) == Some(c3);
    assert BindKeywords(c3, rb) == Some(c);
    BindAppend(c0, p, s);
    BindAppend(c0, p + s, inv);
    BindAppend(c0, p + s + inv, rb);
  }

  /** `repr` of a string, without escaping. */
  function Quote(s: string): string
  {
    "'" + s + "'"
  }

  /** `", ".join(parts)`. */
  function Join(parts: seq<string>): string
  {
    if |parts| == 0 then ""
    else if |parts| == 1 then parts[0]
    else parts[0] + ", " + Join(parts[1..])
  }

  function ValueText(v: Value): string
  {
    match v
    case Str(s) => Quote(s)
    case StrList(items) => "[" + Join(seq(|items|, i requires 0 <= i < |items| => Quote(items[i]))) + "]"
    case Flag(b) => if b then "True" else "False"
  }

  function ArgText(a: Arg): string
  {
    match a
    case Positional(v) => ValueText(v)
    case Keyword(k, v) => k + "=" + ValueText(v)
  }

  /** The line written to the save file. */
  function Statement(args: seq<Arg>): (line: string)
    ensures |line| >= 17
    ensures line[..15] == "FilterDatasets(" && line[|line| - 2..] == ")\n"
  {
    "FilterDatasets(" + Join(seq(|args|, i requires 0 <= i < |args| => ArgText(args[i]))) + ")\n"
  }
}
