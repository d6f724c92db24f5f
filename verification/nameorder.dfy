/**
 * The order in which the document's dataset names are visited when saving:
 * Python's `sorted` on `str`, which compares code point by code point and puts
 * a proper prefix first.
 */
module NameOrder {

  /** `a < b` on Python strings. */
  predicate Below(a: string, b: string)
    decreases |a|
  {
    if a == [] then b != []
    else if b == [] then false
    else if a[0] != b[0] then a[0] < b[0]
    else Below(a[1..], b[1..])
  }

  lemma {:induction false} BelowIrreflexive(a: string)
    ensures !Below(a, a)
    decreases |a|
  {
    if a != [] {
      BelowIrreflexive(a[1..]);
    }
  }

  lemma {:induction false} BelowTransitive(a: string, b: string, c: string)
    requires Below(a, b) && Below(b, c)
    ensures Below(a, c)
    decreases |a|
  {
    if a != [] && a[0] == b[0] && b[0] == c[0] {
      BelowTransitive(a[1..], b[1..], c[1..]);
    }
  }

  /** Any two different names are ordered one way or the other, and not both. */
  lemma {:induction false} BelowTotal(a: string, b: string)
    ensures a == b || Below(a, b) || Below(b, a)
    ensures !(Below(a, b) && Below(b, a))
    decreases |a|
  {
    if a != [] && b != [] && a[0] == b[0] {
      BelowTotal(a[1..], b[1..]);
      assert a == [a[0]] + a[1..] && b == [b[0]] + b[1..];
    }
  }

  /** Strictly increasing, hence also free of repetitions. */
  predicate Sorted(ks: seq<string>)
  {
    forall i, j :: 0 <= i < j < |ks| ==> Below(ks[i], ks[j])
  }

  /** `m` is the least name of `s`. */
  predicate IsLeast(m: string, s: set<string>)
  {
    m in s && forall k :: k in s ==> m == k || Below(m, k)
  }

  /** Adding a name to a set keeps its least name, unless the new name is below it. */
  lemma LeastOfAdded(m: string, rest: set<string>, x: string)
    requires IsLeast(m, rest)
    ensures IsLeast(m, rest + {x}) || IsLeast(x, rest + {x})
  {
    BelowTotal(m, x);
    if !Below(m, x) && m != x {
      forall k | k in rest + {x}
        ensures x == k || Below(x, k)
      {
        if k != x && k != m {
          BelowTransitive(x, m, k);
        }
      }
    }
  }

  /** Every finite non-empty set of names has a least element. */
  lemma {:induction false} LeastExists(s: set<string>)
    requires s != {}
    ensures exists m :: IsLeast(m, s)
    decreases s
  {
    var x :| x in s;
    if s == {x} {
      assert IsLeast(x, s);
    } else {
      var rest := s - {x};
      assert rest != {} && rest + {x} == s;
      LeastExists(rest);
      var m :| IsLeast(m, rest);
      LeastOfAdded(m, rest, x);
    }
  }

  /** The names of `s` in ascending order: what `sorted(s)` returns. */
  ghost function SortedKeys(s: set<string>): (ks: seq<string>)
    ensures Sorted(ks)
    ensures forall k :: k in ks <==> k in s
    decreases s
  {
    if s == {} then []
    else
      LeastExists(s);
      var m :| IsLeast(m, s);
      var rest := SortedKeys(s - {m});
      assert forall j :: 0 <= j < |rest| ==> Below(m, rest[j]);
      [m] + rest
  }

  lemma HeadIsMember(b: seq<string>)
    ensures b == [] || b[0] in b
  {
  }

  /** Two ascending sequences with the same members are the same sequence. */
  lemma {:induction false} SortedUnique(a: seq<string>, b: seq<string>)
    requires Sorted(a) && Sorted(b)
    requires forall k :: k in a <==> k in b
    ensures a == b
    decreases |a|
  {
    if a == [] {
      HeadIsMember(b);
    } else {
      assert b != [] by { assert a[0] in b; }
      assert a[0] == b[0] by {
        assert b[0] in a && a[0] in b;
        var i :| 0 <= i < |a| && a[i] == b[0];
        var j :| 0 <= j < |b| && b[j] == a[0];
        if i != 0 && j != 0 {
          BelowTotal(a[0], b[0]);
        }
      }
      forall k
        ensures k in a[1..] <==> k in b[1..]
      {
        if k in a[1..] {
          var i :| 1 <= i < |a| && a[i] == k;
          BelowIrreflexive(a[0]);
          assert k in b;
        }
        if k in b[1..] {
          var j :| 1 <= j < |b| && b[j] == k;
          BelowIrreflexive(b[0]);
          assert k in a;
        }
      }
      SortedUnique(a[1..], b[1..]);
      assert a == [a[0]] + a[1..] && b == [b[0]] + b[1..];
    }
  }

  /** Python's `sorted` over the names of a dictionary, taking the least remaining name each time. */
  method SortedNames(s: set<string>) returns (ks: seq<string>)
    ensures ks == SortedKeys(s)
  {
    ks := [];
    var remaining := s;
    while remaining != {}
      invariant remaining <= s
      invariant Sorted(ks)
      invariant forall k :: k in ks <==> k in s && k !in remaining
      invariant forall i, k :: 0 <= i < |ks| && k in remaining ==> Below(ks[i], k)
      decreases remaining
    {
      LeastExists(remaining);
      var m :| IsLeast(m, remaining);
      ks := ks + [m];
      remaining := remaining - {m};
    }
    SortedUnique(ks, SortedKeys(s));
  }
}
