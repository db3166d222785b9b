/** JavaScript strings as sequences of UTF-16 code units, their default sort order, and sorting by key. */
module Strings {

  type CodeUnit = x: int | 0 <= x < 0x10000

  type Str = seq<CodeUnit>

  /** The code units of a source-text literal (the model only uses ASCII literals). */
  function Lit(s: string): (r: Str)
    requires forall i :: 0 <= i < |s| ==> s[i] as int < 0x80
    ensures |r| == |s|
    ensures forall i :: 0 <= i < |s| ==> r[i] == s[i] as int
  {
    seq(|s|, i requires 0 <= i < |s| => s[i] as int)
  }

  /** `a <= b` in the order `Array.prototype.sort` uses by default: lexicographic on code units. */
  predicate Leq(a: Str, b: Str)
  {
    a == [] || (b != [] && (a[0] < b[0] || (a[0] == b[0] && Leq(a[1..], b[1..]))))
  }

  lemma {:induction false} LeqTotal(a: Str, b: Str)
    ensures Leq(a, b) || Leq(b, a)
  {
    if a != [] && b != [] && a[0] == b[0] {
      LeqTotal(a[1..], b[1..]);
    }
  }

  lemma {:induction false} LeqAntisymmetric(a: Str, b: Str)
    requires Leq(a, b) && Leq(b, a)
    ensures a == b
  {
    if a != [] {
      LeqAntisymmetric(a[1..], b[1..]);
      assert a == [a[0]] + a[1..] && b == [b[0]] + b[1..];
    }
  }

  lemma {:induction false} LeqTransitive(a: Str, b: Str, c: Str)
    requires Leq(a, b) && Leq(b, c)
    ensures Leq(a, c)
  {
    if a != [] && a[0] == b[0] && b[0] == c[0] {
      LeqTransitive(a[1..], b[1..], c[1..]);
    }
  }

  predicate Less(a: Str, b: Str)
  {
    Leq(a, b) && a != b
  }

  /** A value filed under a property name. */
  datatype Entry<T> = Entry(key: Str, value: T)

  ghost predicate DistinctKeys<T>(es: seq<Entry<T>>)
  {
    forall i, j :: 0 <= i < j < |es| ==> es[i].key != es[j].key
  }

  ghost predicate StrictlySorted<T>(es: seq<Entry<T>>)
  {
    forall i, j :: 0 <= i < j < |es| ==> Less(es[i].key, es[j].key)
  }

  function InsertByKey<T(!new)>(e: Entry<T>, es: seq<Entry<T>>): (r: seq<Entry<T>>)
    ensures |r| == |es| + 1
    ensures forall x :: x in r <==> x == e || x in es
  {
    if es == [] || Leq(e.key, es[0].key) then [e] + es
    else [es[0]] + InsertByKey(e, es[1..])
  }

  /** `Object.keys(o).sort()` followed by reading each property. */
  function SortByKey<T(!new)>(es: seq<Entry<T>>): (r: seq<Entry<T>>)
    ensures |r| == |es|
    ensures forall x :: x in r <==> x in es
  {
    if es == [] then [] else InsertByKey(es[0], SortByKey(es[1..]))
  }

  lemma {:induction false} InsertByKeySorted<T(!new)>(e: Entry<T>, es: seq<Entry<T>>)
    requires StrictlySorted(es)
    requires forall x :: x in es ==> x.key != e.key
    ensures StrictlySorted(InsertByKey(e, es))
  {
    if es == [] {
    } else if Leq(e.key, es[0].key) {
      forall j | 0 <= j < |es| ensures Less(e.key, es[j].key) {
        if j > 0 { LeqTransitive(e.key, es[0].key, es[j].key); }
        assert es[j] in es;
      }
    } else {
      LeqTotal(e.key, es[0].key);
      InsertByKeySorted(e, es[1..]);
      var r := InsertByKey(e, es[1..]);
      forall j | 0 <= j < |r| ensures Less(es[0].key, r[j].key) {
        assert r[j] in r;
      }
    }
  }

  lemma {:induction false} SortByKeySorted<T(!new)>(es: seq<Entry<T>>)
    requires DistinctKeys(es)
    ensures StrictlySorted(SortByKey(es))
  {
    if es != [] {
      SortByKeySorted(es[1..]);
      InsertByKeySorted(es[0], SortByKey(es[1..]));
    }
  }

  lemma FirstIsMember<T>(s: seq<T>)
    requires s != []
    ensures s[0] in s
  {
  }

  /** A strictly sorted list is determined by what it contains. */
  lemma {:induction false} StrictlySortedUnique<T(!new)>(a: seq<Entry<T>>, b: seq<Entry<T>>)
    requires StrictlySorted(a) && StrictlySorted(b)
    requires forall x :: x in a <==> x in b
    ensures a == b
  {
    if a == [] {
      if b != [] {
        FirstIsMember(b);
        assert false;
      }
    } else {
      assert a[0] in a;
      assert a[0] in b && b[0] in b;
      assert b[0] in a;
      if a[0] != b[0] {
        var i :| 0 <= i < |b| && b[i] == a[0];
        var j :| 0 <= j < |a| && a[j] == b[0];
        LeqAntisymmetric(a[0].key, b[0].key);
      }
      forall x | x in a[1..] ensures x in b[1..] {
        SortedTailMembership(a, b, x);
      }
      forall x | x in b[1..] ensures x in a[1..] {
        SortedTailMembership(b, a, x);
      }
      StrictlySortedUnique(a[1..], b[1..]);
      assert a == [a[0]] + a[1..] && b == [b[0]] + b[1..];
    }
  }

  lemma SortedTailMembership<T(!new)>(a: seq<Entry<T>>, b: seq<Entry<T>>, x: Entry<T>)
    requires StrictlySorted(a) && a != [] && b != [] && a[0] == b[0]
    requires x in a[1..] && x in b
    ensures x in b[1..]
  {
    var i :| 0 <= i < |a[1..]| && a[1..][i] == x;
    assert Less(a[0].key, a[i + 1].key);
    var j :| 0 <= j < |b| && b[j] == x;
    assert j != 0;
    assert b[1..][j - 1] == x;
  }

  /** `[...new Set(values)]`. */
  function Unique(values: seq<Str>): (r: seq<Str>)
    ensures |r| <= |values|
  {
    if values == [] then []
    else
      var n := |values| - 1;
      Unique(values[..n]) + if values[n] in values[..n] then [] else [values[n]]
  }

  /** Deduplication keeps what is there, once. */
  lemma {:induction false} UniqueKeeps(values: seq<Str>)
    ensures forall x :: x in Unique(values) <==> x in values
    ensures forall i, j :: 0 <= i < j < |Unique(values)| ==> Unique(values)[i] != Unique(values)[j]
  {
    if values != [] {
      var n := |values| - 1;
      UniqueKeeps(values[..n]);
      assert values == values[..n] + [values[n]];
    }
  }
}
