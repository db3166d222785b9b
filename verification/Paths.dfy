/** Slash-separated paths: the textual prefix test, safe relative paths, and canonical paths with missing tails. */
module Paths {
  import opened Wrappers
  import opened Strings

  const SLASH: CodeUnit := 0x2F
  const BACKSLASH: CodeUnit := 0x5C
  const TILDE: CodeUnit := 0x7E
  const DOT: CodeUnit := 0x2E
  const NUL: CodeUnit := 0

  predicate StartsWith(s: Str, prefix: Str)
  {
    |prefix| <= |s| && s[..|prefix|] == prefix
  }

  predicate EndsWithSlash(s: Str)
  {
    s != [] && s[|s| - 1] == SLASH
  }

  predicate PrefixOrEqual(parent: Str, child: Str)
  {
    parent == child || StartsWith(child, if EndsWithSlash(parent) then parent else parent + [SLASH])
  }

  /** The names `path.resolve` leaves in a path. */
  predicate IsName(s: Str)
  {
    s != [] && SLASH !in s && s != [DOT] && s != [DOT, DOT]
  }

  type Name = s: Str | IsName(s) witness [0x61]

  /** A resolved absolute path, as its names from the root down. */
  type Path = seq<Name>

  function Join(names: seq<Str>): Str
  {
    if names == [] then []
    else if |names| == 1 then names[0]
    else names[0] + [SLASH] + Join(names[1..])
  }

  function Absolute(p: Path): Str
  {
    [SLASH] + Join(p)
  }

  // ------------------------------------------------------- the prefix test on normal paths

  /** Two slash-free heads, each followed by nothing or by a slash, are equal when the texts are. */
  lemma {:induction false} HeadsAgree(a: Str, b: Str, x: Str, y: Str)
    requires SLASH !in a && SLASH !in b
    requires a + x == b + y
    requires (x == [] || x[0] == SLASH) && (y == [] || y[0] == SLASH)
    ensures a == b && x == y
  {
    if a == [] {
      assert a + x == x;
      if b == [] { assert b + y == y; } else { NoSlashFirst(b, y, x); }
    } else if b == [] {
      NoSlashFirst(a, x, y);
    } else {
      assert (a + x)[0] == a[0] && (b + y)[0] == b[0];
      assert (a + x)[1..] == a[1..] + x && (b + y)[1..] == b[1..] + y;
      HeadsAgree(a[1..], b[1..], x, y);
    }
  }

  lemma NoSlashFirst(b: Str, y: Str, x: Str)
    requires b != [] && SLASH !in b && (x == [] || x[0] == SLASH)
    ensures b + y != x
  {
    assert (b + y)[0] == b[0];
  }

  /** What follows the first name of a joined path. */
  function After(names: seq<Str>): (r: Str)
    requires names != []
    ensures r == [] || r[0] == SLASH
    ensures Join(names) == names[0] + r
  {
    if |names| == 1 then [] else [SLASH] + Join(names[1..])
  }

  lemma JoinNeverEndsInSlash(p: Path)
    requires p != []
    ensures Join(p) != [] && !EndsWithSlash(Join(p)) && Join(p)[0] != SLASH
  {
    var n := p[0];
    assert n[0] in n;
    if |p| == 1 {
      assert n[|n| - 1] in n;
    } else {
      JoinNeverEndsInSlash(p[1..]);
    }
  }

  lemma {:induction false} JoinAppend(p: seq<Str>, q: seq<Str>)
    requires p != [] && q != []
    ensures Join(p + q) == Join(p) + [SLASH] + Join(q)
  {
    if |p| == 1 {
      assert (p + q)[1..] == q;
    } else {
      JoinAppend(p[1..], q);
      assert (p + q)[1..] == p[1..] + q;
    }
  }

  ghost predicate SlashFree(names: seq<Str>)
  {
    forall i :: 0 <= i < |names| ==> SLASH !in names[i]
  }

  /** A text that continues a joined path after a slash, or equals it, continues it name by name. */
  lemma {:induction false} JoinedPrefix(p: seq<Str>, q: seq<Str>, rest: Str)
    requires SlashFree(p) && SlashFree(q) && p != [] && q != [] && Join(q) == Join(p) + rest
    requires rest == [] || rest[0] == SLASH
    ensures p <= q
  {
    SplitHeads(p, q, rest);
    if |p| == 1 {
      assert p == [p[0]] && q[..1] == [q[0]];
    } else {
      TailsAgree(p, q, rest);
      JoinedPrefix(p[1..], q[1..], rest);
      assert p == [p[0]] + p[1..] && q == [q[0]] + q[1..];
    }
  }

  lemma SplitHeads(p: seq<Str>, q: seq<Str>, rest: Str)
    requires SlashFree(p) && SlashFree(q) && p != [] && q != [] && Join(q) == Join(p) + rest
    requires rest == [] || rest[0] == SLASH
    ensures p[0] == q[0] && After(q) == After(p) + rest
  {
    HeadsSplit(p[0], After(p), q[0], After(q), rest);
  }

  lemma HeadsSplit(a: Str, x: Str, b: Str, y: Str, rest: Str)
    requires SLASH !in a && SLASH !in b && b + y == (a + x) + rest
    requires (x == [] || x[0] == SLASH) && (y == [] || y[0] == SLASH) && (rest == [] || rest[0] == SLASH)
    ensures a == b && y == x + rest
  {
    assert (a + x) + rest == a + (x + rest);
    HeadsAgree(a, b, x + rest, y);
  }

  lemma TailsAgree(p: seq<Str>, q: seq<Str>, rest: Str)
    requires |p| > 1 && q != [] && After(q) == After(p) + rest
    ensures |q| > 1 && Join(q[1..]) == Join(p[1..]) + rest
  {
    assert After(p)[1..] == Join(p[1..]);
    assert After(q)[1..] == Join(p[1..]) + rest;
  }

  lemma PrefixExtends(p: Path, q: Path)
    requires p != [] && p < q
    ensures StartsWith(Join(q), Join(p) + [SLASH])
  {
    assert q == p + q[|p|..];
    JoinAppend(p, q[|p|..]);
  }

  /** On normal relative paths the textual test is exactly the prefix order on names. */
  lemma PrefixIsSegmentwise(p: Path, q: Path)
    requires p != [] && q != []
    ensures PrefixOrEqual(Join(p), Join(q)) <==> p <= q
  {
    JoinNeverEndsInSlash(p);
    if PrefixOrEqual(Join(p), Join(q)) {
      var rest := PrefixLeaves(Join(p), Join(q));
      JoinedPrefix(p, q, rest);
    }
    if p < q { PrefixExtends(p, q); }
  }

  /** What follows a prefix that does not end in a slash. */
  lemma PrefixLeaves(a: Str, b: Str) returns (rest: Str)
    requires PrefixOrEqual(a, b) && !EndsWithSlash(a)
    ensures b == a + rest && (rest == [] || rest[0] == SLASH)
  {
    if a == b {
      rest := [];
    } else {
      rest := b[|a|..];
      assert (a + [SLASH])[|a|] == b[|a|];
      assert b[..|a|] == b[..|a| + 1][..|a|];
    }
  }

  /** And so it is on resolved absolute paths, the root included. */
  lemma PrefixIsSegmentwiseAbsolute(p: Path, q: Path)
    ensures PrefixOrEqual(Absolute(p), Absolute(q)) <==> p <= q
  {
    if p == [] {
      assert Absolute(p) == [SLASH];
      assert Absolute(q)[..1] == [SLASH];
    } else {
      JoinNeverEndsInSlash(p);
      assert Absolute(p)[|Absolute(p)| - 1] == Join(p)[|Join(p)| - 1];
      if q == [] {
        assert Absolute(q) == [SLASH];
      } else {
        PrefixIsSegmentwise(p, q);
        ShiftedPrefix(Join(p), Join(q));
      }
    }
  }

  /** A leading slash on both sides does not change the test. */
  lemma ShiftedPrefix(a: Str, b: Str)
    requires a != []
    ensures PrefixOrEqual([SLASH] + a, [SLASH] + b) <==> PrefixOrEqual(a, b)
  {
    assert EndsWithSlash([SLASH] + a) <==> EndsWithSlash(a);
    assert ([SLASH] + b)[1..] == b && ([SLASH] + a)[1..] == a;
    ShiftedStart(a, b);
    ShiftedStart(a + [SLASH], b);
    assert [SLASH] + a + [SLASH] == [SLASH] + (a + [SLASH]);
  }

  lemma ShiftedStart(a: Str, b: Str)
    ensures StartsWith([SLASH] + b, [SLASH] + a) <==> StartsWith(b, a)
  {
    if |a| <= |b| {
      assert ([SLASH] + b)[..|a| + 1] == [SLASH] + b[..|a|];
      assert ([SLASH] + b[..|a|])[1..] == b[..|a|] && ([SLASH] + a)[1..] == a;
    }
  }

  lemma JoinInjective(p: Path, q: Path)
    requires Join(p) == Join(q)
    ensures p == q
  {
    if p == [] || q == [] {
      if p != [] { JoinNeverEndsInSlash(p); }
      if q != [] { JoinNeverEndsInSlash(q); }
    } else {
      PrefixIsSegmentwise(p, q);
      PrefixIsSegmentwise(q, p);
    }
  }

  // ------------------------------------------------------- the prefix test on any text

  lemma PrefixLength(parent: Str, child: Str)
    requires PrefixOrEqual(parent, child)
    ensures StartsWith(child, parent) && (parent != child && |parent| == |child| ==> false)
  {
    if parent != child && !EndsWithSlash(parent) {
      assert (parent + [SLASH])[..|parent|] == parent;
      assert child[..|parent| + 1][..|parent|] == child[..|parent|];
    }
    if |parent| == |child| { assert child[..|parent|] == child; }
  }

  lemma PrefixAntisymmetric(a: Str, b: Str)
    requires PrefixOrEqual(a, b) && PrefixOrEqual(b, a)
    ensures a == b
  {
    PrefixLength(a, b);
    PrefixLength(b, a);
  }

  lemma PrefixTransitive(a: Str, b: Str, c: Str)
    requires PrefixOrEqual(a, b) && PrefixOrEqual(b, c)
    ensures PrefixOrEqual(a, c)
  {
    if a != b && b != c {
      var head := if EndsWithSlash(a) then a else a + [SLASH];
      PrefixLength(b, c);
      assert c[..|b|][..|head|] == c[..|head|];
    }
  }

  // ------------------------------------------------------- resolving relative texts

  /** `value.split('/')`. */
  function Split(s: Str): (r: seq<Str>)
    ensures r != []
    ensures forall i :: 0 <= i < |r| ==> SLASH !in r[i]
  {
    if s == [] then [[]]
    else
      var rest := Split(s[1..]);
      if s[0] == SLASH then [[]] + rest else [[s[0]] + rest[0]] + rest[1..]
  }

  lemma {:induction false} JoinSplit(s: Str)
    ensures Join(Split(s)) == s
  {
    if s != [] {
      var rest := Split(s[1..]);
      JoinSplit(s[1..]);
      assert s == [s[0]] + s[1..];
      if s[0] == SLASH {
        assert ([[]] + rest)[1..] == rest;
      } else {
        var r := [[s[0]] + rest[0]] + rest[1..];
        assert r[1..] == rest[1..];
      }
    }
  }

  predicate SafeRelative(value: Str)
  {
    && value != [] && value[0] != SLASH && value[0] != TILDE
    && BACKSLASH !in value && NUL !in value
    && forall i :: 0 <= i < |Split(value)| ==> Split(value)[i] != [] && Split(value)[i] != [DOT, DOT]
  }

  /** One component of `path.resolve`. */
  function Enter(at: Path, part: Str): Path
    requires SLASH !in part
  {
    if part == [] || part == [DOT] then at
    else if part == [DOT, DOT] then (if at == [] then [] else at[..|at| - 1])
    else at + [part]
  }

  function Follow(at: Path, parts: seq<Str>): Path
    requires forall i :: 0 <= i < |parts| ==> SLASH !in parts[i]
    decreases |parts|
  {
    if parts == [] then at else Follow(Enter(at, parts[0]), parts[1..])
  }

  /** `path.resolve(root, value)`. */
  function Resolve(root: Path, value: Str): Path
  {
    Follow(if StartsWith(value, [SLASH]) then [] else root, Split(value))
  }

  /** Splitting undoes joining names without slashes. */
  lemma {:induction false} SplitJoin(parts: seq<Str>)
    requires parts != [] && SlashFree(parts)
    ensures Split(Join(parts)) == parts
  {
    if |parts| == 1 {
      SlashFreeSplit(parts[0]);
      assert parts == [parts[0]];
    } else {
      SplitJoin(parts[1..]);
      SplitFirst(parts[0], Join(parts[1..]));
      assert parts == [parts[0]] + parts[1..];
    }
  }

  lemma {:induction false} SplitFirst(name: Str, rest: Str)
    requires SLASH !in name
    ensures Split(name + [SLASH] + rest) == [name] + Split(rest)
  {
    var s := name + [SLASH] + rest;
    if name == [] {
      assert s[1..] == rest;
    } else {
      SplitFirst(name[1..], rest);
      assert s[1..] == name[1..] + [SLASH] + rest && s[0] == name[0];
      assert [name[0]] + name[1..] == name;
      assert ([name[1..]] + Split(rest))[1..] == Split(rest);
    }
  }

  /** A non-empty text made of names joined by single slashes, none of them empty or two dots. */
  ghost predicate JoinsNames(value: Str)
  {
    exists parts :: parts != [] && value == Join(parts) && forall i :: 0 <= i < |parts| ==>
      parts[i] != [] && parts[i] != [46, 46] && 47 !in parts[i]
  }

  /** The safe relative texts: such a text that starts with no tilde and holds no backslash and no null. */
  lemma SafeRelativeMeans(value: Str)
    ensures SafeRelative(value) <==> JoinsNames(value) && value[0] != 126 && 92 !in value && 0 !in value
  {
    if SafeRelative(value) { JoinSplit(value); }
    if JoinsNames(value) {
      var parts :| parts != [] && value == Join(parts) && forall i :: 0 <= i < |parts| ==>
        parts[i] != [] && parts[i] != [46, 46] && 47 !in parts[i];
      SplitJoin(parts);
      assert value == parts[0] + After(parts) && value[0] == parts[0][0];
      assert parts[0][0] in parts[0];
    }
  }

  /** `path.resolve` undoes `path.relative` for every path below the root. */
  lemma ResolveRelative(root: Path, candidate: Path)
    requires root < candidate
    ensures Resolve(root, Relative(root, candidate)) == candidate
  {
    var rest := candidate[|root|..];
    JoinNeverEndsInSlash(rest);
    assert Join(rest)[..1] == [Join(rest)[0]];
    SplitJoin(rest);
    FollowNames(root, rest);
    assert candidate == root + rest;
  }

  lemma {:induction false} FollowNames(at: Path, names: Path)
    ensures SlashFree(names) && Follow(at, names) == at + names
    decreases |names|
  {
    if names != [] {
      FollowNames(at + [names[0]], names[1..]);
      assert at + [names[0]] + names[1..] == at + names;
    }
  }

  lemma {:induction false} FollowExtends(at: Path, parts: seq<Str>)
    requires forall i :: 0 <= i < |parts| ==> SLASH !in parts[i] && parts[i] != [DOT, DOT]
    ensures at <= Follow(at, parts)
    decreases |parts|
  {
    if parts != [] {
      FollowExtends(Enter(at, parts[0]), parts[1..]);
      assert at <= Enter(at, parts[0]);
    }
  }

  /** Resolving a safe relative path never leaves the root. */
  lemma SafeStaysUnder(root: Path, value: Str)
    requires SafeRelative(value)
    ensures root <= Resolve(root, value) && PrefixOrEqual(Absolute(root), Absolute(Resolve(root, value)))
  {
    assert value[..1] == [value[0]];
    FollowExtends(root, Split(value));
    PrefixIsSegmentwiseAbsolute(root, Resolve(root, value));
  }

  /** How many names two paths share from the root down. */
  function Common(p: Path, q: Path): (n: nat)
    ensures n <= |p| && n <= |q| && p[..n] == q[..n]
    ensures n == |p| <==> p <= q
  {
    if p != [] && q != [] && p[0] == q[0] then
      assert p == [p[0]] + p[1..] && q == [q[0]] + q[1..];
      1 + Common(p[1..], q[1..])
    else 0
  }

  function StepsUp(n: nat): (r: seq<Str>)
    ensures |r| == n && forall i :: 0 <= i < n ==> r[i] == [DOT, DOT]
  {
    seq(n, _ => [DOT, DOT])
  }

  /** `path.relative(root, candidate)`. */
  function Relative(root: Path, candidate: Path): (r: Str)
    ensures root <= candidate ==> r == Join(candidate[|root|..])
  {
    var n := Common(root, candidate);
    var up := StepsUp(|root| - n);
    assert up == [] ==> up + candidate[n..] == candidate[n..];
    Join(up + candidate[n..])
  }

  /** A path that does not lie under the root is reached by stepping up first. */
  lemma OutsideStepsUp(root: Path, candidate: Path)
    requires !(root <= candidate)
    ensures StartsWith(Relative(root, candidate), [DOT, DOT])
  {
    var n := Common(root, candidate);
    JoinStarts(StepsUp(|root| - n) + candidate[n..]);
  }

  lemma JoinStarts(names: seq<Str>)
    requires names != []
    ensures StartsWith(Join(names), names[0])
  {
    assert Join(names) == names[0] + After(names);
  }

  // ------------------------------------------------------- canonical paths

  /** What the guard asks the file system; `None` is an error. */
  datatype FileSystem = FileSystem(
    exists_: Path -> bool,
    realpath: Path -> Option<Path>,
    isDirectory: Path -> Option<bool>,
    isSymlink: Path -> Option<bool>)

  /** The deepest existing ancestor-or-self of a path. */
  ghost predicate Deepest(fs: FileSystem, p: Path, n: nat)
  {
    && n <= |p| && fs.exists_(p[..n])
    && forall m :: n < m <= |p| ==> !fs.exists_(p[..m])
  }

  /** `realpath` of the deepest existing ancestor, followed by the names that do not exist yet. */
  function Canonical(fs: FileSystem, p: Path): (r: Option<Path>)
    ensures r.Some? <==> exists n: nat :: Deepest(fs, p, n) && fs.realpath(p[..n]).Some?
    ensures forall n: nat :: Deepest(fs, p, n) && fs.realpath(p[..n]).Some? ==> r == Some(fs.realpath(p[..n]).value + p[n..])
  {
    CanonicalFrom(fs, p, |p|)
  }

  function CanonicalFrom(fs: FileSystem, p: Path, n: nat): (r: Option<Path>)
    requires n <= |p| && forall m :: n < m <= |p| ==> !fs.exists_(p[..m])
    ensures r.Some? <==> exists k: nat :: Deepest(fs, p, k) && fs.realpath(p[..k]).Some?
    ensures forall k: nat :: Deepest(fs, p, k) && fs.realpath(p[..k]).Some? ==> r == Some(fs.realpath(p[..k]).value + p[k..])
  {
    if fs.exists_(p[..n]) then
      assert Deepest(fs, p, n);
      assert forall k: nat :: Deepest(fs, p, k) ==> k == n;
      match fs.realpath(p[..n]) case None => None case Some(found) => Some(found + p[n..])
    else if n == 0 then
      assert forall k: nat | k <= |p| :: !fs.exists_(p[..k]);
      None
    else CanonicalFrom(fs, p, n - 1)
  }

  method RealpathWithMissingTail(fs: FileSystem, candidate: Path) returns (r: Option<Path>)
    ensures r == Canonical(fs, candidate)
  {
    var current, tail: Path := candidate, [];
    while !fs.exists_(current)
      invariant current + tail == candidate
      invariant forall m :: |current| < m <= |candidate| ==> !fs.exists_(candidate[..m])
      invariant Canonical(fs, candidate) == CanonicalFrom(fs, candidate, |current|)
      decreases |current|
    {
      assert current == candidate[..|current|];
      if current == [] { return None; }
      tail := [current[|current| - 1]] + tail;
      current := current[..|current| - 1];
    }
    assert current == candidate[..|current|] && tail == candidate[|current|..];
    var found := fs.realpath(current);
    if found.None? { return None; }
    return Some(found.value + tail);
  }

  function CanonicalRoot(fs: FileSystem, root: Option<Path>): Option<Path>
  {
    if root.None? || fs.isDirectory(root.value) != Some(true) then None else fs.realpath(root.value)
  }

  /** Some directory on the way down is a symbolic link; the walk stops where nothing can be read. */
  function LinkOnTheWay(fs: FileSystem, at: Path, rest: Path): bool
    decreases |rest|
  {
    if rest == [] then false
    else
      var link := fs.isSymlink(at + [rest[0]]);
      link.Some? && (link.value || LinkOnTheWay(fs, at + [rest[0]], rest[1..]))
  }

  /** A first name that starts with two dots makes the relative path look like one that leaves the root. */
  predicate LooksOutside(names: Path)
  {
    StartsWith(Join(names), [DOT, DOT])
  }

  method HasSymlinkComponent(fs: FileSystem, root: Path, candidate: Path) returns (r: bool)
    ensures r <==>
      || !(root <= candidate)
      || LooksOutside(candidate[|root|..])
      || LinkOnTheWay(fs, root, candidate[|root|..])
  {
    if StartsWith(Relative(root, candidate), [DOT, DOT]) { return true; }
    if !(root <= candidate) { OutsideStepsUp(root, candidate); }
    var rest := candidate[|root|..];
    var current := root;
    for i := 0 to |rest|
      invariant current == root + rest[..i]
      invariant LinkOnTheWay(fs, root, rest) <==> LinkOnTheWay(fs, current, rest[i..])
    {
      assert rest[i..][1..] == rest[i + 1..];
      current := current + [rest[i]];
      match fs.isSymlink(current) {
        case None => return false;
        case Some(link) => if link { return true; }
      }
    }
    return false;
  }

  /** A safe relative text that starts with two dots starts with a name that does. */
  lemma DottedLooksOutside(root: Path, value: Str)
    requires SafeRelative(value) && StartsWith(value, [DOT, DOT])
    ensures root <= Resolve(root, value) && LooksOutside(Resolve(root, value)[|root|..])
  {
    var parts := Split(value);
    assert value[..1] == [value[0]];
    JoinSplit(value);
    DottedFirst(parts);
    FollowExtends(Enter(root, parts[0]), parts[1..]);
    var names := Resolve(root, value)[|root|..];
    assert names[0] == parts[0];
    JoinStarts(names);
    assert Join(names)[..2] == names[0][..2];
  }

  lemma DottedFirst(parts: seq<Str>)
    requires parts != [] && SLASH !in parts[0] && StartsWith(Join(parts), [DOT, DOT])
    ensures StartsWith(parts[0], [DOT, DOT])
  {
    var joined := Join(parts);
    assert joined == parts[0] + After(parts);
    assert joined[0] == DOT && joined[1] == DOT;
    assert After(parts) != [] ==> joined[|parts[0]|] == After(parts)[0];
  }

  lemma {:induction false} SlashFreeSplit(s: Str)
    requires SLASH !in s
    ensures Split(s) == [s]
  {
    if s != [] {
      SlashFreeSplit(s[1..]);
      assert s == [s[0]] + s[1..];
    }
  }

  /** The `n`th component is a symbolic link and the ones before it are not. */
  ghost predicate FirstLink(fs: FileSystem, at: Path, rest: Path, n: int)
  {
    && 0 < n <= |rest| && fs.isSymlink(at + rest[..n]) == Some(true)
    && forall m :: 0 < m < n ==> fs.isSymlink(at + rest[..m]) == Some(false)
  }

  /** What a clean answer means: every readable component before the first unreadable one is not a link. */
  lemma {:induction false} LinkOnTheWayMeans(fs: FileSystem, at: Path, rest: Path)
    ensures LinkOnTheWay(fs, at, rest) <==> exists n :: FirstLink(fs, at, rest, n)
    decreases |rest|
  {
    if rest != [] {
      var next := at + [rest[0]];
      LinkOnTheWayMeans(fs, next, rest[1..]);
      if LinkOnTheWay(fs, at, rest) {
        if fs.isSymlink(next) == Some(true) {
          assert at + rest[..1] == next;
          assert FirstLink(fs, at, rest, 1);
        } else {
          assert fs.isSymlink(at + [rest[0]]).Some?;
          assert !fs.isSymlink(at + [rest[0]]).value;
          var n :| FirstLink(fs, next, rest[1..], n);
          LinkLater(fs, at, rest, n);
        }
      }
      if n :| FirstLink(fs, at, rest, n) { LinkEarlier(fs, at, rest, n); }
    }
  }

  lemma LinkLater(fs: FileSystem, at: Path, rest: Path, n: int)
    requires rest != [] && fs.isSymlink(at + [rest[0]]) == Some(false)
    requires FirstLink(fs, at + [rest[0]], rest[1..], n)
    ensures FirstLink(fs, at, rest, n + 1)
  {
    assert at + rest[..n + 1] == at + [rest[0]] + rest[1..][..n];
    forall m | 0 < m < n + 1 ensures fs.isSymlink(at + rest[..m]) == Some(false) {
      assert at + rest[..m] == at + [rest[0]] + rest[1..][..m - 1];
      if m == 1 { assert at + rest[..1] == at + [rest[0]]; }
    }
  }

  lemma {:induction false} LinkEarlier(fs: FileSystem, at: Path, rest: Path, n: int)
    requires FirstLink(fs, at, rest, n)
    ensures LinkOnTheWay(fs, at, rest)
    decreases |rest|
  {
    var next := at + [rest[0]];
    assert at + rest[..1] == next;
    if n > 1 {
      assert at + rest[..n] == next + rest[1..][..n - 1];
      forall m | 0 < m < n - 1 ensures fs.isSymlink(next + rest[1..][..m]) == Some(false) {
        assert at + rest[..m + 1] == next + rest[1..][..m];
      }
      LinkEarlier(fs, next, rest[1..], n - 1);
    }
  }
}
