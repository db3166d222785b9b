/** The canonical printer is unambiguous: two values print alike exactly when they are the same JSON value. */
module JsonInjectivity {
  import opened Strings
  import opened JsonText

  // ------------------------------------------------------- what "the same value" means

  /** Joining the one-element list `[undefined]` gives the text of the empty list. */
  function Elements(items: seq<Json>): seq<Json>
  {
    if items == [Undefined] then [] else items
  }

  /** Equality of JSON values that ignores the order of object members. */
  ghost predicate Same(a: Json, b: Json)
    decreases a, b, 1
  {
    match (a, b)
    case (Array(x), Array(y)) =>
      |Elements(x)| == |Elements(y)| && forall i :: 0 <= i < |Elements(x)| ==> Same(Elements(x)[i], Elements(y)[i])
    case (Object(x), Object(y)) =>
      (forall m :: m in x ==> FoundIn(m, y)) && (forall m :: m in y ==> FoundFor(x, m))
    case _ => a == b
  }

  /** `ms` has the member `m`. */
  ghost predicate FoundIn(m: Entry<Json>, ms: seq<Entry<Json>>)
    decreases m, ms, 0
  {
    exists n :: n in ms && m.key == n.key && Same(m.value, n.value)
  }

  ghost predicate FoundFor(ms: seq<Entry<Json>>, n: Entry<Json>)
    decreases ms, n, 0
  {
    exists m :: m in ms && m.key == n.key && Same(m.value, n.value)
  }

  // ------------------------------------------------------- sequences

  lemma Associate(p: Str, q: Str, x: Str)
    ensures p + q + x == p + (q + x)
  {
  }

  lemma CancelPrefix(p: Str, x: Str, y: Str)
    requires p + x == p + y
    ensures x == y
  {
    assert (p + x)[|p|..] == x && (p + y)[|p|..] == y;
  }

  // ------------------------------------------------------- strings

  lemma HexDigitInjective(a: int, b: int)
    requires 0 <= a < 16 && 0 <= b < 16 && HexDigit(a) == HexDigit(b)
    ensures a == b
  {
  }

  lemma UnicodeEscapeInjective(u: CodeUnit, v: CodeUnit)
    requires UnicodeEscape(u) == UnicodeEscape(v)
    ensures u == v
  {
    var p, q := UnicodeEscape(u), UnicodeEscape(v);
    assert p[2] == q[2] && p[3] == q[3] && p[4] == q[4] && p[5] == q[5];
    HexDigitInjective(u / 16 / 16 / 16, v / 16 / 16 / 16);
    HexDigitInjective(u / 16 / 16 % 16, v / 16 / 16 % 16);
    HexDigitInjective(u / 16 % 16, v / 16 % 16);
    HexDigitInjective(u % 16, v % 16);
  }

  /** No token is a proper prefix of another, and tokens determine their code unit. */
  lemma TokenInjective(u: CodeUnit, v: CodeUnit, x: Str, y: Str)
    requires Token(u) + x == Token(v) + y
    ensures u == v && x == y
  {
    var p, q := Token(u) + x, Token(v) + y;
    assert p[0] == Token(u)[0] && q[0] == Token(v)[0];
    if |Token(u)| > 1 { assert p[1] == Token(u)[1]; }
    if |Token(v)| > 1 { assert q[1] == Token(v)[1]; }
    if |Token(u)| == 6 && |Token(v)| == 6 {
      assert p[..6] == UnicodeEscape(u) && q[..6] == UnicodeEscape(v);
      UnicodeEscapeInjective(u, v);
    }
    assert u == v;
    CancelPrefix(Token(u), x, y);
  }

  lemma EscapeStart(s: Str)
    requires s != []
    ensures Escape(s) != [] && Escape(s)[0] != 34
    ensures StartsWithPair(s) <==> IsHighSurrogate(Escape(s)[0])
  {
  }

  /** Units of `s` covered by the first step of `Escape`. */
  function StepLength(s: Str): (n: nat)
    requires s != []
    ensures n <= |s|
  {
    if StartsWithPair(s) then 2 else 1
  }

  lemma EscapeStep(s: Str, x: Str)
    requires s != []
    ensures var n := StepLength(s);
      Escape(s) + [34] + x == (if n == 2 then [s[0], s[1]] else Token(s[0])) + (Escape(s[n..]) + [34] + x)
  {
    var n := StepLength(s);
    var first := if n == 2 then [s[0], s[1]] else Token(s[0]);
    assert Escape(s) == first + Escape(s[n..]);
    assert first + Escape(s[n..]) + [34] + x == first + (Escape(s[n..]) + [34] + x);
  }

  lemma PairInjective(a: CodeUnit, b: CodeUnit, c: CodeUnit, d: CodeUnit, x: Str, y: Str)
    requires [a, b] + x == [c, d] + y
    ensures a == c && b == d && x == y
  {
    assert ([a, b] + x)[0] == a && ([a, b] + x)[1] == b && ([c, d] + y)[0] == c && ([c, d] + y)[1] == d;
    CancelPrefix([a, b], x, y);
  }

  lemma {:induction false} EscapeInjective(s: Str, t: Str, x: Str, y: Str)
    requires Escape(s) + [34] + x == Escape(t) + [34] + y
    ensures s == t && x == y
    decreases |s| + |t|
  {
    var p, q := Escape(s) + [34] + x, Escape(t) + [34] + y;
    if s != [] { EscapeStart(s); assert p[0] == Escape(s)[0]; }
    if t != [] { EscapeStart(t); assert q[0] == Escape(t)[0]; }
    if s == [] || t == [] {
      assert s == [] && t == [];
      assert p == [34] + x && q == [34] + y;
      CancelPrefix([34], x, y);
    } else {
      var n := StepLength(s);
      var s', t' := s[n..], t[n..];
      EscapeStep(s, x);
      EscapeStep(t, y);
      if n == 2 {
        PairInjective(s[0], s[1], t[0], t[1], Escape(s') + [34] + x, Escape(t') + [34] + y);
      } else {
        TokenInjective(s[0], t[0], Escape(s') + [34] + x, Escape(t') + [34] + y);
      }
      EscapeInjective(s', t', x, y);
      assert s == s[..n] + s' && t == t[..n] + t';
    }
  }

  lemma QuoteInjective(s: Str, t: Str, x: Str, y: Str)
    requires Quote(s) + x == Quote(t) + y
    ensures s == t && x == y
  {
    assert Quote(s) + x == [34] + (Escape(s) + [34] + x);
    assert Quote(t) + y == [34] + (Escape(t) + [34] + y);
    CancelPrefix([34], Escape(s) + [34] + x, Escape(t) + [34] + y);
    EscapeInjective(s, t, x, y);
  }

  // ------------------------------------------------------- numbers

  /** The text after a printed value: nothing, or a separator. */
  ghost predicate Delimited(x: Str)
  {
    x == [] || x[0] == 44 || x[0] == 93 || x[0] == 125
  }

  lemma BoundaryUnit(p: Str, q: Str, x: Str, y: Str)
    requires p + x == q + y && |p| < |q|
    ensures x != [] && x[0] == q[|p|]
  {
    assert |x| > 0;
    assert (p + x)[|p|] == x[0] && (q + y)[|p|] == q[|p|];
  }

  lemma MaximalMunch(p: Str, q: Str, x: Str, y: Str)
    requires p + x == q + y && Delimited(x) && Delimited(y)
    requires forall i :: 0 <= i < |p| ==> NumberUnit(p[i])
    requires forall i :: 0 <= i < |q| ==> NumberUnit(q[i])
    ensures p == q && x == y
  {
    if |p| < |q| {
      BoundaryUnit(p, q, x, y);
      assert false;
    } else if |q| < |p| {
      BoundaryUnit(q, p, y, x);
      assert false;
    }
    assert (p + x)[..|p|] == p && (q + y)[..|q|] == q;
    CancelPrefix(p, x, y);
  }

  // ------------------------------------------------------- values

  predicate StartsLike(v: Json, u: CodeUnit)
  {
    match v
    case Undefined => u == 117
    case Null => u == 110
    case Bool(b) => u == if b then 116 else 102
    case Number(_) => NumberUnit(u)
    case String(_) => u == 34
    case Array(_) => u == 91
    case Object(_) => u == 123
  }

  /** The first unit of a printed value tells its kind and is never a separator. */
  lemma PrintStart(format: NumberFormat, v: Json)
    requires GoodFormat(format)
    ensures Print(format, v) != []
    ensures StartsLike(v, Print(format, v)[0])
  {
  }

  lemma {:induction false} PrintInjective(format: NumberFormat, a: Json, b: Json, x: Str, y: Str)
    requires GoodFormat(format) && WellFormed(a) && WellFormed(b)
    requires Delimited(x) && Delimited(y)
    requires Print(format, a) + x == Print(format, b) + y
    ensures Same(a, b) && x == y
    decreases a, 2
  {
    var p, q := Print(format, a), Print(format, b);
    PrintStart(format, a);
    PrintStart(format, b);
    assert (p + x)[0] == p[0] && (q + y)[0] == q[0];
    match a {
      case Number(n) =>
        MaximalMunch(p, q, x, y);
      case String(s) =>
        QuoteInjective(s, b.s, x, y);
      case Array(items) =>
        ArrayInjective(format, a, b, x, y);
      case Object(members) =>
        ObjectInjective(format, a, b, x, y);
      case _ =>
        CancelPrefix(p, x, y);
    }
  }

  lemma ArrayInjective(format: NumberFormat, a: Json, b: Json, x: Str, y: Str)
    requires a.Array? && b.Array?
    requires GoodFormat(format) && WellFormed(a) && WellFormed(b)
    requires Delimited(x) && Delimited(y)
    requires Print(format, a) + x == Print(format, b) + y
    ensures Same(a, b) && x == y
    decreases a, 1
  {
    var u, v := Elements(a.items), Elements(b.items);
    ArrayPrint(format, a, x);
    ArrayPrint(format, b, y);
    CancelPrefix([91], Join(PrintItems(format, u)) + [93] + x, Join(PrintItems(format, v)) + [93] + y);
    if u == [] || v == [] {
      NoItems(format, u, v, x, y);
    } else {
      ItemsInjective(format, a, u, v, x, y);
    }
  }

  lemma ArrayPrint(format: NumberFormat, a: Json, x: Str)
    requires a.Array?
    ensures Print(format, a) + x == [91] + (Join(PrintItems(format, Elements(a.items))) + [93] + x)
  {
  }

  lemma NoItems(format: NumberFormat, u: seq<Json>, v: seq<Json>, x: Str, y: Str)
    requires GoodFormat(format) && (u == [] || v == []) && u != [Undefined] && v != [Undefined]
    requires Join(PrintItems(format, u)) + [93] + x == Join(PrintItems(format, v)) + [93] + y
    ensures u == v && x == y
  {
    if u != [] { JoinStart(format, u, x); }
    if v != [] { JoinStart(format, v, y); }
    assert Join([]) + [93] + x == [93] + x && Join([]) + [93] + y == [93] + y;
    CancelPrefix([93], x, y);
  }

  /** Apart from `[undefined]`, a printed nonempty list does not start with the closing bracket. */
  lemma JoinStart(format: NumberFormat, items: seq<Json>, x: Str)
    requires GoodFormat(format) && items != [] && items != [Undefined]
    ensures var r := Join(PrintItems(format, items)) + [93] + x; r[0] != 93
  {
    PrintStart(format, items[0]);
  }

  /** Texts of the first elements agree up to the separator that follows them. */
  lemma ItemInjective(format: NumberFormat, u: Json, v: Json, x: Str, y: Str)
    requires GoodFormat(format) && WellFormed(u) && WellFormed(v)
    requires x != [] && y != [] && Delimited(x) && Delimited(y)
    requires PrintItem(format, u) + x == PrintItem(format, v) + y
    ensures Same(u, v) && x == y
    decreases u, 3
  {
    PrintStart(format, u);
    PrintStart(format, v);
    assert (PrintItem(format, u) + x)[0] == (PrintItem(format, v) + y)[0];
    if u.Undefined? || v.Undefined? {
      assert u.Undefined? && v.Undefined?;
      assert PrintItem(format, u) + x == x && PrintItem(format, v) + y == y;
    } else {
      PrintInjective(format, u, v, x, y);
    }
  }

  lemma {:induction false} ItemsInjective(format: NumberFormat, a: Json, u: seq<Json>, v: seq<Json>, x: Str, y: Str)
    requires GoodFormat(format) && u != [] && v != []
    requires forall e :: e in u ==> e < a && WellFormed(e)
    requires forall e :: e in v ==> WellFormed(e)
    requires Join(PrintItems(format, u)) + [93] + x == Join(PrintItems(format, v)) + [93] + y
    ensures |u| == |v| && (forall i :: 0 <= i < |u| ==> Same(u[i], v[i])) && x == y
    decreases a, 0, |u|
  {
    var x' := ItemsRest(format, u, x);
    var y' := ItemsRest(format, v, y);
    assert u[0] in u && v[0] in v;
    ItemInjective(format, u[0], v[0], x', y');
    EndsAlike(93, |u|, |v|, Join(PrintItems(format, u[1..])), Join(PrintItems(format, v[1..])), x, y);
    if |u| > 1 {
      forall e | e in u[1..] ensures e in u { }
      forall e | e in v[1..] ensures e in v { }
      ItemsInjective(format, a, u[1..], v[1..], x, y);
      SameItems(u, v);
    }
  }

  lemma SameItems(u: seq<Json>, v: seq<Json>)
    requires u != [] && v != [] && Same(u[0], v[0]) && |u[1..]| == |v[1..]|
    requires forall i :: 0 <= i < |u[1..]| ==> Same(u[1..][i], v[1..][i])
    ensures |u| == |v| && forall i :: 0 <= i < |u| ==> Same(u[i], v[i])
  {
    forall i | 0 <= i < |u| ensures Same(u[i], v[i]) {
      if i > 0 { assert u[i] == u[1..][i - 1] && v[i] == v[1..][i - 1]; }
    }
  }

  /** What follows the first element of a printed list. */
  lemma ItemsRest(format: NumberFormat, u: seq<Json>, x: Str) returns (rest: Str)
    requires u != []
    ensures rest == Continued(93, |u|, Join(PrintItems(format, u[1..])), x)
    ensures Join(PrintItems(format, u)) + [93] + x == PrintItem(format, u[0]) + rest
  {
    var parts := PrintItems(format, u);
    assert parts[1..] == PrintItems(format, u[1..]);
    rest := if |u| == 1 then [93] + x else [44] + (Join(parts[1..]) + [93] + x);
    if |u| == 1 {
      Associate(parts[0], [93], x);
    } else {
      Regroup(parts[0], [44], Join(parts[1..]), [93], x);
    }
  }

  lemma Regroup4(a: Str, b: Str, c: Str, d: Str)
    ensures a + b + c + d == a + (b + c + d)
  {
  }

  lemma Regroup(a: Str, b: Str, c: Str, d: Str, e: Str)
    ensures a + b + c + d + e == a + (b + (c + d + e))
  {
  }

  // ------------------------------------------------------- objects

  ghost predicate PrintedFrom(format: NumberFormat, a: Json, parts: seq<Entry<Str>>)
    requires a.Object?
  {
    forall p :: p in parts ==>
      exists i :: 0 <= i < |a.members| && p == Entry(a.members[i].key, Print(format, a.members[i].value))
  }

  lemma SortedMembers(format: NumberFormat, a: Json)
    requires a.Object? && WellFormed(a)
    ensures var parts := SortByKey(PrintMembers(format, a.members));
      PrintedFrom(format, a, parts) && StrictlySorted(parts) && |parts| == |a.members|
  {
    SortByKeySorted(PrintMembers(format, a.members));
  }

  lemma ObjectInjective(format: NumberFormat, a: Json, b: Json, x: Str, y: Str)
    requires a.Object? && b.Object?
    requires GoodFormat(format) && WellFormed(a) && WellFormed(b)
    requires Delimited(x) && Delimited(y)
    requires Print(format, a) + x == Print(format, b) + y
    ensures Same(a, b) && x == y
    decreases a, 1
  {
    var u := SortByKey(PrintMembers(format, a.members));
    var v := SortByKey(PrintMembers(format, b.members));
    SortedMembers(format, a);
    SortedMembers(format, b);
    Regroup4([123], JoinMembers(u), [125], x);
    Regroup4([123], JoinMembers(v), [125], y);
    CancelPrefix([123], JoinMembers(u) + [125] + x, JoinMembers(v) + [125] + y);
    MembersInjective(format, a, b, u, v, x, y);
    MembersSame(format, a, b);
  }

  lemma MembersSame(format: NumberFormat, a: Json, b: Json)
    requires a.Object? && b.Object?
    requires GoodFormat(format) && WellFormed(a) && WellFormed(b)
    requires SortByKey(PrintMembers(format, a.members)) == SortByKey(PrintMembers(format, b.members))
    ensures Same(a, b)
    decreases a, 0, 1
  {
    var u, v := SortByKey(PrintMembers(format, a.members)), SortByKey(PrintMembers(format, b.members));
    SortedMembers(format, a);
    SortedMembers(format, b);
    forall m | m in a.members ensures FoundIn(m, b.members) {
      var i :| 0 <= i < |a.members| && a.members[i] == m;
      var j := SourceMember(format, b, v, PrintedMember(format, a, i));
      MemberInjective(format, a, b, i, j);
      assert b.members[j] in b.members;
    }
    forall n | n in b.members ensures FoundFor(a.members, n) {
      var j :| 0 <= j < |b.members| && b.members[j] == n;
      var i := SourceMember(format, a, u, PrintedMember(format, b, j));
      MemberInjective(format, a, b, i, j);
      assert a.members[i] in a.members;
    }
  }

  function PrintedMember(format: NumberFormat, a: Json, i: nat): (part: Entry<Str>)
    requires a.Object? && i < |a.members|
    ensures part in SortByKey(PrintMembers(format, a.members))
    ensures part == Entry(a.members[i].key, Print(format, a.members[i].value))
  {
    PrintMembers(format, a.members)[i]
  }

  lemma MemberInjective(format: NumberFormat, a: Json, b: Json, i: nat, j: nat)
    requires a.Object? && b.Object? && i < |a.members| && j < |b.members|
    requires GoodFormat(format) && WellFormed(a) && WellFormed(b)
    requires Print(format, a.members[i].value) == Print(format, b.members[j].value)
    ensures Same(a.members[i].value, b.members[j].value)
    decreases a, 0, 0
  {
    assert a.members[i] in a.members && b.members[j] in b.members;
    PrintInjective(format, a.members[i].value, b.members[j].value, [], []);
  }

  lemma SourceMember(format: NumberFormat, a: Json, parts: seq<Entry<Str>>, part: Entry<Str>) returns (i: nat)
    requires a.Object? && PrintedFrom(format, a, parts) && part in parts
    ensures i < |a.members| && a.members[i].key == part.key && Print(format, a.members[i].value) == part.value
  {
    i :| 0 <= i < |a.members| && part == Entry(a.members[i].key, Print(format, a.members[i].value));
  }

  /** Equal member texts give equal lists of printed members. */
  lemma {:induction false} MembersInjective(format: NumberFormat, a: Json, b: Json,
                                            u: seq<Entry<Str>>, v: seq<Entry<Str>>, x: Str, y: Str)
    requires a.Object? && b.Object?
    requires GoodFormat(format) && WellFormed(a) && WellFormed(b)
    requires PrintedFrom(format, a, u) && PrintedFrom(format, b, v)
    requires JoinMembers(u) + [125] + x == JoinMembers(v) + [125] + y
    ensures u == v && x == y
    decreases a, 0, |u|
  {
    if u == [] || v == [] {
      NoMembers(u, v, x, y);
    } else {
      var x' := MembersRest(u, x);
      var y' := MembersRest(v, y);
      FirstMemberInjective(format, a, b, u, v, x', y');
      EndsAlike(125, |u|, |v|, JoinMembers(u[1..]), JoinMembers(v[1..]), x, y);
      if |u| > 1 {
        RestPrinted(format, a, u);
        RestPrinted(format, b, v);
        MembersInjective(format, a, b, u[1..], v[1..], x, y);
      }
      SameWhole(u, v);
    }
  }

  lemma SameWhole<T>(u: seq<T>, v: seq<T>)
    requires u != [] && v != [] && u[0] == v[0] && (u[1..] == v[1..] || |u| == |v| == 1)
    ensures u == v
  {
    assert u == [u[0]] + u[1..] && v == [v[0]] + v[1..];
  }

  lemma NoMembers(u: seq<Entry<Str>>, v: seq<Entry<Str>>, x: Str, y: Str)
    requires (u == [] || v == []) && JoinMembers(u) + [125] + x == JoinMembers(v) + [125] + y
    ensures u == v && x == y
  {
    if u != [] { MembersStart(u, x); }
    if v != [] { MembersStart(v, y); }
    assert JoinMembers([]) + [125] + x == [125] + x && JoinMembers([]) + [125] + y == [125] + y;
    CancelPrefix([125], x, y);
  }

  lemma RestPrinted(format: NumberFormat, a: Json, u: seq<Entry<Str>>)
    requires a.Object? && u != [] && PrintedFrom(format, a, u)
    ensures PrintedFrom(format, a, u[1..])
  {
    forall e | e in u[1..] ensures e in u { }
  }

  /** After its first element, a list of `n` elements closes or goes on with a comma. */
  function Continued(close: CodeUnit, n: nat, rest: Str, x: Str): (r: Str)
    ensures r != [] && r[0] == if n == 1 then close else 44
  {
    if n == 1 then [close] + x else [44] + (rest + [close] + x)
  }

  lemma EndsAlike(close: CodeUnit, n: nat, m: nat, j: Str, k: Str, x: Str, y: Str)
    requires close != 44 && Continued(close, n, j, x) == Continued(close, m, k, y)
    ensures n == 1 <==> m == 1
    ensures if n == 1 then x == y else j + [close] + x == k + [close] + y
  {
    assert Continued(close, n, j, x)[0] == Continued(close, m, k, y)[0];
    if n == 1 {
      CancelPrefix([close], x, y);
    } else {
      CancelPrefix([44], j + [close] + x, k + [close] + y);
    }
  }

  lemma MembersStart(u: seq<Entry<Str>>, x: Str)
    requires u != []
    ensures var r := JoinMembers(u) + [125] + x; r != [] && r[0] == 34
  {
  }

  lemma FirstMemberInjective(format: NumberFormat, a: Json, b: Json,
                             u: seq<Entry<Str>>, v: seq<Entry<Str>>, x: Str, y: Str)
    requires a.Object? && b.Object? && u != [] && v != []
    requires GoodFormat(format) && WellFormed(a) && WellFormed(b)
    requires PrintedFrom(format, a, u) && PrintedFrom(format, b, v)
    requires Delimited(x) && Delimited(y)
    requires Quote(u[0].key) + ([58] + u[0].value + x) == Quote(v[0].key) + ([58] + v[0].value + y)
    ensures u[0] == v[0] && x == y
    decreases a, 0, 0
  {
    QuoteInjective(u[0].key, v[0].key, [58] + u[0].value + x, [58] + v[0].value + y);
    assert [58] + u[0].value + x == [58] + (u[0].value + x) && [58] + v[0].value + y == [58] + (v[0].value + y);
    CancelPrefix([58], u[0].value + x, v[0].value + y);
    var i := SourceMember(format, a, u, u[0]);
    var j := SourceMember(format, b, v, v[0]);
    assert a.members[i] in a.members && b.members[j] in b.members;
    PrintInjective(format, a.members[i].value, b.members[j].value, x, y);
    SuffixCancel(u[0].value, v[0].value, x);
  }

  lemma SuffixCancel(p: Str, q: Str, x: Str)
    requires p + x == q + x
    ensures p == q
  {
    assert |p| == |q|;
    assert (p + x)[..|p|] == p && (q + x)[..|q|] == q;
  }

  lemma MembersRest(u: seq<Entry<Str>>, x: Str) returns (rest: Str)
    requires u != []
    ensures rest == Continued(125, |u|, JoinMembers(u[1..]), x)
    ensures JoinMembers(u) + [125] + x == Quote(u[0].key) + ([58] + u[0].value + rest)
  {
    var key, value := Quote(u[0].key), u[0].value;
    rest := if |u| == 1 then [125] + x else [44] + (JoinMembers(u[1..]) + [125] + x);
    Associate([58], value, rest);
    if |u| == 1 {
      Regroup(key, [58], value, [125], x);
      Associate(value, [125], x);
    } else {
      Regroup(key, [58], value, [44], JoinMembers(u[1..]) + [125] + x);
      Associate(value, [44], JoinMembers(u[1..]) + [125] + x);
      MemberTail(key, [58], value, [44], JoinMembers(u[1..]), [125] + x);
      Associate(JoinMembers(u[1..]), [125], x);
      Associate(JoinMembers(u), [125], x);
    }
  }

  lemma MemberTail(a: Str, b: Str, c: Str, d: Str, e: Str, f: Str)
    ensures a + b + c + d + e + f == a + b + c + d + (e + f)
  {
  }

  // ------------------------------------------------------- the converse

  lemma {:induction false} SamePrints(format: NumberFormat, a: Json, b: Json)
    requires WellFormed(a) && WellFormed(b) && Same(a, b)
    ensures Print(format, a) == Print(format, b)
    decreases a, 1
  {
    match a {
      case Array(items) => SameArraysPrint(format, a, b);
      case Object(members) => SameObjectsPrint(format, a, b);
      case _ =>
    }
  }

  lemma SameArraysPrint(format: NumberFormat, a: Json, b: Json)
    requires a.Array? && b.Array? && WellFormed(a) && WellFormed(b) && Same(a, b)
    ensures Print(format, a) == Print(format, b)
    decreases a, 0
  {
    var u, v := Elements(a.items), Elements(b.items);
    forall i | 0 <= i < |u| ensures PrintItem(format, u[i]) == PrintItem(format, v[i]) {
      SamePrints(format, u[i], v[i]);
      assert u[i].Undefined? == v[i].Undefined?;
    }
    assert PrintItems(format, u) == PrintItems(format, v);
  }

  lemma PrintedOnce(format: NumberFormat, members: seq<Entry<Json>>, m: Entry<Json>)
    requires m in members
    ensures Entry(m.key, Print(format, m.value)) in PrintMembers(format, members)
  {
    var i :| 0 <= i < |members| && members[i] == m;
    assert PrintMembers(format, members)[i] == Entry(m.key, Print(format, m.value));
  }

  lemma SameObjectsPrint(format: NumberFormat, a: Json, b: Json)
    requires a.Object? && b.Object? && WellFormed(a) && WellFormed(b) && Same(a, b)
    ensures Print(format, a) == Print(format, b)
    decreases a, 0
  {
    var p, q := PrintMembers(format, a.members), PrintMembers(format, b.members);
    forall e | e in p ensures e in q {
      var i :| 0 <= i < |p| && p[i] == e;
      var m := a.members[i];
      assert FoundIn(m, b.members);
      var n :| n in b.members && m.key == n.key && Same(m.value, n.value);
      SamePrints(format, m.value, n.value);
      PrintedOnce(format, b.members, n);
    }
    forall e | e in q ensures e in p {
      var j :| 0 <= j < |q| && q[j] == e;
      var n := b.members[j];
      assert FoundFor(a.members, n);
      var m :| m in a.members && m.key == n.key && Same(m.value, n.value);
      SamePrints(format, m.value, n.value);
      PrintedOnce(format, a.members, m);
    }
    SortByKeySorted(p);
    SortByKeySorted(q);
    StrictlySortedUnique(SortByKey(p), SortByKey(q));
  }

  /** The printer is a canonical form: its text decides sameness, for every pair of values. */
  lemma PrintCanonical(format: NumberFormat, a: Json, b: Json)
    requires GoodFormat(format) && WellFormed(a) && WellFormed(b)
    ensures Print(format, a) == Print(format, b) <==> Same(a, b)
  {
    if Print(format, a) == Print(format, b) {
      PrintInjective(format, a, b, [], []);
    }
    if Same(a, b) {
      SamePrints(format, a, b);
    }
  }

  // ------------------------------------------------------- objects with known keys

  /** The object with these keys and values. */
  function Zip(keys: seq<Str>, values: seq<Json>): (r: seq<Entry<Json>>)
    requires |keys| == |values|
    ensures |r| == |keys|
    ensures forall i :: 0 <= i < |r| ==> r[i] == Entry(keys[i], values[i])
  {
    seq(|keys|, i requires 0 <= i < |keys| => Entry(keys[i], values[i]))
  }

  ghost predicate Distinct(keys: seq<Str>)
  {
    forall i, j :: 0 <= i < j < |keys| ==> keys[i] != keys[j]
  }

  /** Objects with the same distinct keys are the same exactly when their values are. */
  lemma ZipFound(keys: seq<Str>, u: seq<Json>, v: seq<Json>, i: nat)
    requires |keys| == |u| == |v| && Distinct(keys) && i < |u| && FoundIn(Zip(keys, u)[i], Zip(keys, v))
    ensures Same(u[i], v[i])
  {
    var x, y := Zip(keys, u), Zip(keys, v);
    var n :| n in y && x[i].key == n.key && Same(x[i].value, n.value);
    var j :| 0 <= j < |y| && y[j] == n;
    assert j == i;
  }

  lemma ZipSame(keys: seq<Str>, u: seq<Json>, v: seq<Json>)
    requires |keys| == |u| == |v| && Distinct(keys)
    ensures Same(Object(Zip(keys, u)), Object(Zip(keys, v))) <==> forall i :: 0 <= i < |u| ==> Same(u[i], v[i])
  {
    var x, y := Zip(keys, u), Zip(keys, v);
    if Same(Object(x), Object(y)) {
      forall i | 0 <= i < |u| ensures Same(u[i], v[i]) {
        assert x[i] in x;
        ZipFound(keys, u, v, i);
      }
    }
    if forall i :: 0 <= i < |u| ==> Same(u[i], v[i]) {
      forall m | m in x ensures FoundIn(m, y) {
        var i :| 0 <= i < |x| && x[i] == m;
        assert y[i] in y && Same(u[i], v[i]);
      }
      forall n | n in y ensures FoundFor(x, n) {
        var j :| 0 <= j < |y| && y[j] == n;
        assert x[j] in x && Same(u[j], v[j]);
      }
    }
  }
}
