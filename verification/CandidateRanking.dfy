/** The ranking is a total order, so the candidate list does not depend on the order of the inventory. */
module CandidateRanking {
  import opened Wrappers
  import opened Strings
  import opened CapabilityResolution

  /** A collation compares any two strings, and consistently. */
  ghost predicate GoodLocale(locale: Locale)
  {
    && (forall a, b :: locale.notAfter(a, b) || locale.notAfter(b, a))
    && (forall a, b, c :: locale.notAfter(a, b) && locale.notAfter(b, c) ==> locale.notAfter(a, c))
  }

  /** It tells different strings apart, as it does for plain identifiers. */
  ghost predicate Separating(locale: Locale)
  {
    forall a, b :: locale.notAfter(a, b) && locale.notAfter(b, a) ==> a == b
  }

  /** The comparator puts neither before the other. */
  predicate Tied(locale: Locale, a: Candidate, b: Candidate)
  {
    RanksNotAfter(locale, a, b) && RanksNotAfter(locale, b, a)
  }

  lemma RanksTotal(locale: Locale, a: Candidate, b: Candidate)
    requires GoodLocale(locale)
    ensures RanksNotAfter(locale, a, b) || RanksNotAfter(locale, b, a)
  {
  }

  lemma RanksTransitive(locale: Locale, a: Candidate, b: Candidate, c: Candidate)
    requires GoodLocale(locale) && RanksNotAfter(locale, a, b) && RanksNotAfter(locale, b, c)
    ensures RanksNotAfter(locale, a, c)
  {
    if a.eligible == c.eligible && a.score == c.score {
      assert locale.notAfter(a.providerId, b.providerId) && locale.notAfter(b.providerId, c.providerId);
      assert locale.notAfter(a.providerId, c.providerId);
      if locale.notAfter(c.providerId, a.providerId) {
        assert locale.notAfter(c.providerId, b.providerId) && locale.notAfter(b.providerId, a.providerId);
      }
    }
  }

  ghost predicate SortedByRank(locale: Locale, cs: seq<Candidate>)
  {
    forall i, j :: 0 <= i < j < |cs| ==> RanksNotAfter(locale, cs[i], cs[j])
  }

  lemma {:induction false} InsertRanks(locale: Locale, c: Candidate, sorted: seq<Candidate>)
    requires GoodLocale(locale) && SortedByRank(locale, sorted)
    ensures SortedByRank(locale, InsertCandidate(locale, c, sorted))
    ensures multiset(InsertCandidate(locale, c, sorted)) == multiset(sorted) + multiset{c}
  {
    if sorted == [] {
    } else if RanksNotAfter(locale, c, sorted[0]) {
      forall j | 0 <= j < |sorted| ensures RanksNotAfter(locale, c, sorted[j]) {
        if j > 0 { RanksTransitive(locale, c, sorted[0], sorted[j]); }
      }
    } else {
      RanksTotal(locale, c, sorted[0]);
      InsertRanks(locale, c, sorted[1..]);
      assert sorted == [sorted[0]] + sorted[1..];
      var r := InsertCandidate(locale, c, sorted[1..]);
      forall j | 0 <= j < |r| ensures RanksNotAfter(locale, sorted[0], r[j]) {
        assert r[j] in multiset(r);
        if r[j] != c {
          assert r[j] in multiset(sorted[1..]);
        }
      }
    }
  }

  /** The candidate list is sorted by rank and holds exactly the candidates. */
  lemma {:induction false} SortRanks(locale: Locale, cs: seq<Candidate>)
    requires GoodLocale(locale)
    ensures SortedByRank(locale, SortCandidates(locale, cs))
    ensures multiset(SortCandidates(locale, cs)) == multiset(cs)
  {
    if cs != [] {
      SortRanks(locale, cs[1..]);
      InsertRanks(locale, cs[0], SortCandidates(locale, cs[1..]));
      assert cs == [cs[0]] + cs[1..];
    }
  }

  /** Eligible candidates come first, then the higher scores. */
  lemma EligibleFirst(r: Resolving, providers: seq<Provider>, i: nat, j: nat)
    requires GoodLocale(r.locale) && i < j < |Ranked(r, providers)|
    ensures var cs := Ranked(r, providers);
      && (cs[j].eligible ==> cs[i].eligible)
      && (cs[i].eligible == cs[j].eligible ==> cs[i].score >= cs[j].score)
  {
    SortRanks(r.locale, AllCandidates(r, providers));
  }

  /**
   * What is retained: the first 500 of all candidates, the eligible before the others, the higher score before the
   * lower, and equals in the order of their provider's and then their own identity.
   */
  lemma RetainedAreTheBest(r: Resolving, providers: seq<Provider>) returns (dropped: seq<Candidate>)
    requires GoodLocale(r.locale)
    ensures var kept := Bounded(Ranked(r, providers));
      && multiset(kept + dropped) == multiset(AllCandidates(r, providers))
      && |kept| <= 500 && (dropped != [] ==> |kept| == 500)
      && forall i, j :: 0 <= i < j < |kept + dropped| ==> Before(r.locale, (kept + dropped)[i], (kept + dropped)[j])
  {
    SortRanks(r.locale, AllCandidates(r, providers));
    var all := Ranked(r, providers);
    dropped := all[|Bounded(all)|..];
    assert Bounded(all) + dropped == all;
    forall i, j | 0 <= i < j < |all| ensures Before(r.locale, all[i], all[j]) {
      assert RanksNotAfter(r.locale, all[i], all[j]);
    }
  }

  /** `a` may stand before `b`. */
  predicate Before(locale: Locale, a: Candidate, b: Candidate)
  {
    || (a.eligible && !b.eligible)
    || (a.eligible == b.eligible && a.score > b.score)
    || (a.eligible == b.eligible && a.score == b.score
        && locale.notAfter(a.providerId, b.providerId)
        && (locale.notAfter(b.providerId, a.providerId) ==> locale.notAfter(a.capabilityId, b.capabilityId)))
  }

  // ------------------------------------------------------- the list is canonical exactly when nothing ties

  ghost predicate NoTies(locale: Locale, cs: seq<Candidate>)
  {
    forall a, b :: a in cs && b in cs && Tied(locale, a, b) ==> a == b
  }

  lemma SameMembers<T>(x: seq<T>, y: seq<T>)
    requires multiset(x) == multiset(y)
    ensures |x| == |y| && forall c :: c in x <==> c in y
  {
    assert |multiset(x)| == |x| && |multiset(y)| == |y|;
    forall c ensures c in x <==> c in y {
      assert c in x <==> c in multiset(x);
      assert c in y <==> c in multiset(y);
    }
  }

  lemma {:induction false} SortedUnique(locale: Locale, x: seq<Candidate>, y: seq<Candidate>)
    requires SortedByRank(locale, x) && SortedByRank(locale, y)
    requires multiset(x) == multiset(y) && NoTies(locale, x)
    ensures x == y
  {
    SameMembers(x, y);
    if x != [] {
      assert x[0] in y && y[0] in x;
      HeadsTie(locale, x, y);
      SameTails(x, y);
      SortedUnique(locale, x[1..], y[1..]);
      assert x == [x[0]] + x[1..] && y == [y[0]] + y[1..];
    }
  }

  lemma HeadsTie(locale: Locale, x: seq<Candidate>, y: seq<Candidate>)
    requires SortedByRank(locale, x) && SortedByRank(locale, y) && x != [] && y != []
    requires x[0] in y && y[0] in x && NoTies(locale, x)
    ensures x[0] == y[0]
  {
    var i := WhereIs(y, x[0]);
    var j := WhereIs(x, y[0]);
    if i > 0 && j > 0 { assert Tied(locale, x[0], y[0]); }
  }

  /** The candidates that tie with `c`, in order. */
  function TiedWith(locale: Locale, c: Candidate, cs: seq<Candidate>): seq<Candidate>
  {
    if cs == [] then []
    else (if Tied(locale, c, cs[0]) then [cs[0]] else []) + TiedWith(locale, c, cs[1..])
  }

  lemma {:induction false} TiedWithAppend(locale: Locale, c: Candidate, a: seq<Candidate>, b: seq<Candidate>)
    ensures TiedWith(locale, c, a + b) == TiedWith(locale, c, a) + TiedWith(locale, c, b)
  {
    if a == [] {
      assert a + b == b;
    } else {
      TiedWithAppend(locale, c, a[1..], b);
      assert (a + b)[0] == a[0] && (a + b)[1..] == a[1..] + b;
      var head := if Tied(locale, c, a[0]) then [a[0]] else [];
      assert head + (TiedWith(locale, c, a[1..]) + TiedWith(locale, c, b)) == (head + TiedWith(locale, c, a[1..])) + TiedWith(locale, c, b);
    }
  }

  lemma {:induction false} TiedWithMembers(locale: Locale, c: Candidate, cs: seq<Candidate>)
    ensures forall x :: x in TiedWith(locale, c, cs) <==> x in cs && Tied(locale, c, x)
  {
    if cs != [] {
      TiedWithMembers(locale, c, cs[1..]);
      assert cs == [cs[0]] + cs[1..];
    }
  }

  lemma TiedTransitive(locale: Locale, a: Candidate, b: Candidate, c: Candidate)
    requires GoodLocale(locale) && Tied(locale, a, b) && Tied(locale, b, c)
    ensures Tied(locale, a, c)
  {
    RanksTransitive(locale, a, b, c);
    RanksTransitive(locale, c, b, a);
  }

  /** Inserting a candidate puts it before those it ties with and leaves the others' order alone. */
  lemma {:induction false} InsertStable(locale: Locale, c: Candidate, e: Candidate, sorted: seq<Candidate>)
    requires GoodLocale(locale)
    ensures TiedWith(locale, c, InsertCandidate(locale, e, sorted)) ==
      (if Tied(locale, c, e) then [e] else []) + TiedWith(locale, c, sorted)
  {
    if sorted != [] && !RanksNotAfter(locale, e, sorted[0]) {
      InsertStable(locale, c, e, sorted[1..]);
      if Tied(locale, c, e) && Tied(locale, c, sorted[0]) { TiedTransitive(locale, e, c, sorted[0]); }
      var r := InsertCandidate(locale, e, sorted);
      assert r[0] == sorted[0] && r[1..] == InsertCandidate(locale, e, sorted[1..]);
    } else {
      assert ([e] + sorted)[1..] == sorted;
    }
  }

  /** The sort is stable: candidates that tie keep their order. */
  lemma {:induction false} SortStable(locale: Locale, c: Candidate, cs: seq<Candidate>)
    requires GoodLocale(locale)
    ensures TiedWith(locale, c, SortCandidates(locale, cs)) == TiedWith(locale, c, cs)
  {
    if cs != [] {
      SortStable(locale, c, cs[1..]);
      InsertStable(locale, c, cs[0], SortCandidates(locale, cs[1..]));
    }
  }

  /** Whatever ties with a candidate comes in the same order in both lists. */
  ghost predicate TiedAlike(locale: Locale, x: seq<Candidate>, y: seq<Candidate>)
  {
    forall c :: TiedWith(locale, c, x) == TiedWith(locale, c, y)
  }

  /** A sorted list is determined by its members and the order of those that tie. */
  lemma {:induction false} SortedDetermined(locale: Locale, x: seq<Candidate>, y: seq<Candidate>)
    requires GoodLocale(locale) && SortedByRank(locale, x) && SortedByRank(locale, y) && multiset(x) == multiset(y)
    requires TiedAlike(locale, x, y)
    ensures x == y
  {
    SameMembers(x, y);
    if x != [] {
      assert x[0] in y && y[0] in x;
      HeadsAgree(locale, x, y);
      TailsAlike(locale, x, y);
      SameTails(x, y);
      SortedDetermined(locale, x[1..], y[1..]);
      assert x == [x[0]] + x[1..] && y == [y[0]] + y[1..];
    }
  }

  lemma SameTails<T>(x: seq<T>, y: seq<T>)
    requires x != [] && y != [] && x[0] == y[0] && multiset(x) == multiset(y)
    ensures multiset(x[1..]) == multiset(y[1..])
  {
    assert x == [x[0]] + x[1..] && y == [y[0]] + y[1..];
    assert multiset(x[1..]) == multiset(x) - multiset{x[0]} && multiset(y[1..]) == multiset(y) - multiset{y[0]};
  }

  lemma TailsAlike(locale: Locale, x: seq<Candidate>, y: seq<Candidate>)
    requires x != [] && y != [] && x[0] == y[0] && TiedAlike(locale, x, y)
    ensures TiedAlike(locale, x[1..], y[1..])
  {
    forall c ensures TiedWith(locale, c, x[1..]) == TiedWith(locale, c, y[1..]) {
      assert TiedWith(locale, c, x) == TiedWith(locale, c, y);
      TailsTied(locale, c, x, y);
    }
  }

  lemma TailsTied(locale: Locale, c: Candidate, x: seq<Candidate>, y: seq<Candidate>)
    requires x != [] && y != [] && x[0] == y[0] && TiedWith(locale, c, x) == TiedWith(locale, c, y)
    ensures TiedWith(locale, c, x[1..]) == TiedWith(locale, c, y[1..])
  {
    var u, v := TiedWith(locale, c, x[1..]), TiedWith(locale, c, y[1..]);
    if Tied(locale, c, x[0]) {
      assert ([x[0]] + u)[1..] == u && ([y[0]] + v)[1..] == v;
    } else {
      assert [] + u == u && [] + v == v;
    }
  }

  lemma HeadsAgree(locale: Locale, x: seq<Candidate>, y: seq<Candidate>)
    requires GoodLocale(locale) && SortedByRank(locale, x) && SortedByRank(locale, y) && x != [] && y != []
    requires x[0] in y && y[0] in x && TiedAlike(locale, x, y)
    ensures x[0] == y[0]
  {
    var i := WhereIs(y, x[0]);
    var j := WhereIs(x, y[0]);
    RanksTotal(locale, x[0], x[0]);
    if i > 0 && j > 0 { assert Tied(locale, x[0], y[0]); }
    assert Tied(locale, x[0], y[0]);
    assert TiedWith(locale, x[0], x)[0] == x[0] && TiedWith(locale, x[0], y)[0] == y[0];
  }

  /** Two lists of the same candidates rank alike when those that tie come in the same order. */
  lemma RankAlike(locale: Locale, cs: seq<Candidate>, other: seq<Candidate>)
    requires GoodLocale(locale) && multiset(cs) == multiset(other) && TiedAlike(locale, cs, other)
    ensures SortCandidates(locale, cs) == SortCandidates(locale, other)
  {
    var x, y := SortCandidates(locale, cs), SortCandidates(locale, other);
    SortRanks(locale, cs);
    SortRanks(locale, other);
    forall c ensures TiedWith(locale, c, x) == TiedWith(locale, c, y) {
      SortStable(locale, c, cs);
      SortStable(locale, c, other);
      assert TiedWith(locale, c, cs) == TiedWith(locale, c, other);
    }
    SortedDetermined(locale, x, y);
  }

  /** And only then. */
  lemma RankApart(locale: Locale, cs: seq<Candidate>, other: seq<Candidate>, c: Candidate)
    requires GoodLocale(locale) && TiedWith(locale, c, cs) != TiedWith(locale, c, other)
    ensures SortCandidates(locale, cs) != SortCandidates(locale, other)
  {
    SortStable(locale, c, cs);
    SortStable(locale, c, other);
  }

  lemma WhereIs<T>(s: seq<T>, x: T) returns (k: nat)
    requires x in s
    ensures k < |s| && s[k] == x
  {
    k :| 0 <= k < |s| && s[k] == x;
  }

  lemma Fronted(cs: seq<Candidate>, c: Candidate) returns (fronted: seq<Candidate>)
    requires c in cs
    ensures multiset(fronted) == multiset(cs) && fronted != [] && fronted[0] == c
  {
    var i :| 0 <= i < |cs| && cs[i] == c;
    fronted := [c] + cs[..i] + cs[i + 1..];
    assert cs == cs[..i] + [c] + cs[i + 1..];
  }

  /** The ranking depends on nothing but the set of candidates exactly when no two different ones tie. */
  lemma CanonicalExactlyWithoutTies(locale: Locale, cs: seq<Candidate>)
    requires GoodLocale(locale)
    ensures NoTies(locale, cs) <==>
      forall other :: multiset(other) == multiset(cs) ==> SortCandidates(locale, other) == SortCandidates(locale, cs)
  {
    if NoTies(locale, cs) {
      forall other | multiset(other) == multiset(cs) ensures SortCandidates(locale, other) == SortCandidates(locale, cs) {
        SameSort(locale, cs, other);
      }
    } else {
      var a, b :| a in cs && b in cs && Tied(locale, a, b) && a != b;
      var x := Fronted(cs, a);
      var y := Fronted(cs, b);
      RanksTotal(locale, a, a);
      assert TiedWith(locale, a, x)[0] == a && TiedWith(locale, a, y)[0] == b;
      RankApart(locale, x, y, a);
    }
  }

  lemma SameSort(locale: Locale, cs: seq<Candidate>, other: seq<Candidate>)
    requires GoodLocale(locale) && NoTies(locale, cs) && multiset(other) == multiset(cs)
    ensures SortCandidates(locale, other) == SortCandidates(locale, cs)
  {
    SortRanks(locale, cs);
    SortRanks(locale, other);
    SameMembers(cs, SortCandidates(locale, cs));
    SortedUnique(locale, SortCandidates(locale, cs), SortCandidates(locale, other));
  }

  // ------------------------------------------------------- the order of the inventory

  lemma {:induction false} GatheredAppend(offer: Provider -> seq<Candidate>, a: seq<Provider>, b: seq<Provider>)
    ensures Gathered(offer, a + b) == Gathered(offer, a) + Gathered(offer, b)
  {
    if b == [] {
      assert a + b == a;
    } else {
      var n := |b| - 1;
      GatheredAppend(offer, a, b[..n]);
      assert (a + b)[..|a| + n] == a + b[..n] && (a + b)[|a| + n] == b[n];
      assert Gathered(offer, a) + (Gathered(offer, b[..n]) + offer(b[n])) == (Gathered(offer, a) + Gathered(offer, b[..n])) + offer(b[n]);
    }
  }

  lemma GatheredOne(offer: Provider -> seq<Candidate>, p: Provider)
    ensures Gathered(offer, [p]) == offer(p)
  {
    assert [p][..0] == [];
  }

  lemma CandidatesSplit(offer: Provider -> seq<Candidate>, before: seq<Provider>, p: Provider, after: seq<Provider>)
    ensures Gathered(offer, before + [p] + after) == Gathered(offer, before) + offer(p) + Gathered(offer, after)
    ensures Gathered(offer, before + after) == Gathered(offer, before) + Gathered(offer, after)
  {
    GatheredAppend(offer, before + [p], after);
    GatheredAppend(offer, before, [p]);
    GatheredAppend(offer, before, after);
    GatheredOne(offer, p);
  }

  lemma Removed<T>(s: seq<T>, k: nat)
    requires k < |s|
    ensures multiset(s[..k] + s[k + 1..]) == multiset(s) - multiset{s[k]}
  {
    assert s == s[..k] + [s[k]] + s[k + 1..];
    assert multiset(s) == multiset(s[..k]) + multiset{s[k]} + multiset(s[k + 1..]);
  }

  lemma Around<T>(s: seq<T>, k: nat)
    requires k < |s|
    ensures s == s[..k] + [s[k]] + s[k + 1..]
  {
  }

  lemma FirstAround<T>(s: seq<T>)
    requires s != []
    ensures s == [] + [s[0]] + s[1..] && [] + s[1..] == s[1..]
    ensures multiset(s[1..]) == multiset(s) - multiset{s[0]}
  {
    assert s == [s[0]] + s[1..];
  }

  lemma {:induction false} ReorderedCandidates(offer: Provider -> seq<Candidate>, ps: seq<Provider>, qs: seq<Provider>)
    requires multiset(ps) == multiset(qs)
    ensures multiset(Gathered(offer, ps)) == multiset(Gathered(offer, qs))
  {
    SameMembers(ps, qs);
    if ps != [] {
      var k := WhereIs(qs, ps[0]);
      Around(qs, k);
      Removed(qs, k);
      FirstAround(ps);
      CandidatesSplit(offer, [], ps[0], ps[1..]);
      CandidatesSplit(offer, qs[..k], ps[0], qs[k + 1..]);
      ReorderedCandidates(offer, ps[1..], qs[..k] + qs[k + 1..]);
    }
  }

  /** Whichever of two providers comes first, their candidates that tie with `c` come in the same order. */
  ghost predicate Commute(locale: Locale, offer: Provider -> seq<Candidate>, p: Provider, q: Provider, c: Candidate)
  {
    TiedWith(locale, c, offer(p)) + TiedWith(locale, c, offer(q)) == TiedWith(locale, c, offer(q)) + TiedWith(locale, c, offer(p))
  }

  /** A provider that commutes with all before it can be moved to the front. */
  lemma {:induction false} MovesToFront(locale: Locale, offer: Provider -> seq<Candidate>, before: seq<Provider>, p: Provider, c: Candidate)
    requires forall q :: q in before ==> Commute(locale, offer, p, q, c)
    ensures TiedWith(locale, c, Gathered(offer, before)) + TiedWith(locale, c, offer(p)) ==
      TiedWith(locale, c, offer(p)) + TiedWith(locale, c, Gathered(offer, before))
  {
    if before == [] {
      assert TiedWith(locale, c, []) == [];
    } else {
      var n := |before| - 1;
      MovesToFront(locale, offer, before[..n], p, c);
      TiedWithAppend(locale, c, Gathered(offer, before[..n]), offer(before[n]));
      assert Commute(locale, offer, p, before[n], c);
      Rotate(TiedWith(locale, c, Gathered(offer, before[..n])), TiedWith(locale, c, offer(before[n])), TiedWith(locale, c, offer(p)));
    }
  }

  lemma Rotate<T>(a: seq<T>, b: seq<T>, p: seq<T>)
    requires a + p == p + a && b + p == p + b
    ensures (a + b) + p == p + (a + b)
  {
    assert (a + b) + p == a + (b + p);
    assert a + (p + b) == (a + p) + b;
    assert (p + a) + b == p + (a + b);
  }

  lemma PullsToFront(locale: Locale, offer: Provider -> seq<Candidate>, before: seq<Provider>, p: Provider, after: seq<Provider>, c: Candidate)
    requires forall q :: q in before ==> Commute(locale, offer, p, q, c)
    ensures TiedWith(locale, c, Gathered(offer, before + [p] + after)) ==
      TiedWith(locale, c, offer(p)) + TiedWith(locale, c, Gathered(offer, before + after))
  {
    MovesToFront(locale, offer, before, p, c);
    TiedSplit(locale, offer, before, p, after, c);
    var u, v, w := TiedWith(locale, c, Gathered(offer, before)), TiedWith(locale, c, offer(p)), TiedWith(locale, c, Gathered(offer, after));
    assert (v + u) + w == v + (u + w);
  }

  lemma {:induction false} TiedAnyOrder(locale: Locale, offer: Provider -> seq<Candidate>, ps: seq<Provider>, qs: seq<Provider>, c: Candidate)
    requires multiset(ps) == multiset(qs)
    requires forall p, q :: p in ps && q in ps ==> Commute(locale, offer, p, q, c)
    ensures TiedWith(locale, c, Gathered(offer, ps)) == TiedWith(locale, c, Gathered(offer, qs))
  {
    SameMembers(ps, qs);
    if ps == [] {
      assert qs == [];
    } else {
      var p := ps[0];
      var k := WhereIs(qs, p);
      Around(qs, k);
      Removed(qs, k);
      FirstAround(ps);
      var rest := ps[1..];
      assert forall q :: q in rest ==> q in ps;
      assert forall q :: q in qs[..k] ==> q in qs;
      TiedAnyOrder(locale, offer, rest, qs[..k] + qs[k + 1..], c);
      PullsToFront(locale, offer, qs[..k], p, qs[k + 1..], c);
      PullsToFront(locale, offer, [], p, rest, c);
    }
  }

  lemma TiedSplit(locale: Locale, offer: Provider -> seq<Candidate>, before: seq<Provider>, p: Provider, after: seq<Provider>, c: Candidate)
    ensures TiedWith(locale, c, Gathered(offer, before + [p] + after)) ==
      TiedWith(locale, c, Gathered(offer, before)) + TiedWith(locale, c, offer(p)) + TiedWith(locale, c, Gathered(offer, after))
    ensures TiedWith(locale, c, Gathered(offer, before + after)) ==
      TiedWith(locale, c, Gathered(offer, before)) + TiedWith(locale, c, Gathered(offer, after))
  {
    CandidatesSplit(offer, before, p, after);
    TiedWithAppend(locale, c, Gathered(offer, before) + offer(p), Gathered(offer, after));
    TiedWithAppend(locale, c, Gathered(offer, before), offer(p));
    TiedWithAppend(locale, c, Gathered(offer, before), Gathered(offer, after));
  }

  ghost predicate AllCommute(locale: Locale, offer: Provider -> seq<Candidate>, ps: seq<Provider>)
  {
    forall p, q, c :: p in ps && q in ps ==> Commute(locale, offer, p, q, c)
  }

  lemma TwoInFront<T>(ps: seq<T>, p: T, q: T) returns (rest: seq<T>)
    requires p in ps && q in ps && p != q
    ensures multiset([p] + [q] + rest) == multiset(ps) && multiset([q] + [p] + rest) == multiset(ps)
  {
    var i := WhereIs(ps, p);
    var without := ps[..i] + ps[i + 1..];
    Around(ps, i);
    assert q in without;
    var k := WhereIs(without, q);
    rest := without[..k] + without[k + 1..];
    Removed(ps, i);
    Removed(without, k);
    PutBack(ps, without, rest, p, q);
  }

  lemma PutBack<T>(ps: seq<T>, without: seq<T>, rest: seq<T>, p: T, q: T)
    requires p in ps && q in without
    requires multiset(without) == multiset(ps) - multiset{p} && multiset(rest) == multiset(without) - multiset{q}
    ensures multiset([p] + [q] + rest) == multiset(ps) && multiset([q] + [p] + rest) == multiset(ps)
  {
    assert p in multiset(ps) && q in multiset(without);
  }

  lemma SwapsMatter(locale: Locale, offer: Provider -> seq<Candidate>, p: Provider, q: Provider, rest: seq<Provider>, c: Candidate)
    requires !Commute(locale, offer, p, q, c)
    ensures TiedWith(locale, c, Gathered(offer, [p] + [q] + rest)) != TiedWith(locale, c, Gathered(offer, [q] + [p] + rest))
  {
    TiedSplit(locale, offer, [p], q, rest, c);
    TiedSplit(locale, offer, [q], p, rest, c);
    GatheredOne(offer, p);
    GatheredOne(offer, q);
    CancelSuffix(TiedWith(locale, c, offer(p)) + TiedWith(locale, c, offer(q)),
                 TiedWith(locale, c, offer(q)) + TiedWith(locale, c, offer(p)), TiedWith(locale, c, Gathered(offer, rest)));
  }

  lemma CancelSuffix<T>(a: seq<T>, b: seq<T>, suffix: seq<T>)
    requires |a| == |b| && a != b
    ensures a + suffix != b + suffix
  {
    assert (a + suffix)[..|a|] == a;
    assert (b + suffix)[..|b|] == b;
  }

  lemma CommutingRankAlike(r: Resolving, ps: seq<Provider>, qs: seq<Provider>)
    requires GoodLocale(r.locale) && multiset(qs) == multiset(ps) && AllCommute(r.locale, Offers(r), ps)
    ensures Ranked(r, qs) == Ranked(r, ps)
  {
    ReorderedCandidates(Offers(r), ps, qs);
    forall c ensures TiedWith(r.locale, c, AllCandidates(r, ps)) == TiedWith(r.locale, c, AllCandidates(r, qs)) {
      TiedAnyOrder(r.locale, Offers(r), ps, qs, c);
    }
    RankAlike(r.locale, AllCandidates(r, ps), AllCandidates(r, qs));
  }

  lemma SwappedRankApart(r: Resolving, ps: seq<Provider>, p: Provider, q: Provider, c: Candidate)
    returns (x: seq<Provider>, y: seq<Provider>)
    requires GoodLocale(r.locale) && p in ps && q in ps && !Commute(r.locale, Offers(r), p, q, c)
    ensures multiset(x) == multiset(ps) && multiset(y) == multiset(ps) && Ranked(r, x) != Ranked(r, y)
  {
    var rest := TwoInFront(ps, p, q);
    SwapsMatter(r.locale, Offers(r), p, q, rest, c);
    x, y := [p] + [q] + rest, [q] + [p] + rest;
    RankApart(r.locale, AllCandidates(r, x), AllCandidates(r, y), c);
  }

  /** The ranking is the same for every order of the inventory exactly when all its providers commute. */
  lemma OrderIrrelevantExactlyWhen(r: Resolving, ps: seq<Provider>)
    requires GoodLocale(r.locale)
    ensures (forall qs :: multiset(qs) == multiset(ps) ==> Ranked(r, qs) == Ranked(r, ps)) <==> AllCommute(r.locale, Offers(r), ps)
  {
    if AllCommute(r.locale, Offers(r), ps) {
      forall qs | multiset(qs) == multiset(ps) ensures Ranked(r, qs) == Ranked(r, ps) {
        CommutingRankAlike(r, ps, qs);
      }
    } else {
      var p, q, c :| p in ps && q in ps && !Commute(r.locale, Offers(r), p, q, c);
      var x, y := SwappedRankApart(r, ps, p, q, c);
    }
  }

  // ------------------------------------------------------- unique identities

  ghost predicate UniqueProviders(providers: seq<Provider>)
  {
    forall i, j :: 0 <= i < |providers| && 0 <= j < |providers| && providers[i].providerId == providers[j].providerId ==>
      providers[i] == providers[j]
  }

  /** No two candidates of different providers tie. */
  ghost predicate NoTiesAcross(locale: Locale, cs: seq<Candidate>)
  {
    forall a, b :: a in cs && b in cs && Tied(locale, a, b) ==> a.providerId == b.providerId
  }

  lemma {:induction false} CandidatesComeFrom(r: Resolving, providers: seq<Provider>, c: Candidate)
    returns (p: Provider)
    requires c in AllCandidates(r, providers)
    ensures p in providers && c in Offers(r)(p)
  {
    var n := |providers| - 1;
    if c in AllCandidates(r, providers[..n]) {
      p := CandidatesComeFrom(r, providers[..n], c);
    } else {
      p := providers[n];
    }
  }

  lemma CandidatesInclude(r: Resolving, providers: seq<Provider>, p: Provider)
    requires p in providers
    ensures forall c :: c in Offers(r)(p) ==> c in AllCandidates(r, providers)
  {
    var i := WhereIs(providers, p);
    assert providers == providers[..i] + [p] + providers[i + 1..];
    CandidatesSplit(Offers(r), providers[..i], p, providers[i + 1..]);
  }

  lemma {:induction false} OfferedBy(r: Resolving, p: Provider, ids: seq<Str>, c: Candidate) returns (id: Str)
    requires c in CandidatesOf(r, p, ids)
    ensures id in ids && c == CandidateFor(r, p, id) && c.providerId == p.providerId && c.capabilityId == id
  {
    var n := |ids| - 1;
    if c in CandidatesOf(r, p, ids[..n]) {
      id := OfferedBy(r, p, ids[..n], c);
    } else {
      id := ids[n];
      CatalogKeepsId(r.catalog, p, id);
    }
  }

  lemma {:induction false} CatalogKeepsId(catalog: seq<CapabilityMatch>, p: Provider, id: Str)
    ensures CatalogEntry(catalog, p, id).capabilityId == id
  {
    if catalog != [] { CatalogKeepsId(catalog[1..], p, id); }
  }

  lemma CommuteWithoutTies(r: Resolving, p: Provider, q: Provider, c: Candidate)
    requires GoodLocale(r.locale)
    requires forall a, b :: a in Offers(r)(p) && b in Offers(r)(q) ==> !Tied(r.locale, a, b)
    ensures Commute(r.locale, Offers(r), p, q, c)
  {
    var u, v := TiedWith(r.locale, c, Offers(r)(p)), TiedWith(r.locale, c, Offers(r)(q));
    TiedWithMembers(r.locale, c, Offers(r)(p));
    TiedWithMembers(r.locale, c, Offers(r)(q));
    if u != [] {
      assert u[0] in u;
      if v != [] {
        assert v[0] in v;
        TiedTransitive(r.locale, u[0], c, v[0]);
      }
      assert v == [] && u + v == u && v + u == u;
    } else {
      assert u + v == v && v + u == v;
    }
  }

  lemma TiesDoNotCommute(r: Resolving, p: Provider, q: Provider, a: Candidate, b: Candidate)
    requires GoodLocale(r.locale) && p.providerId != q.providerId
    requires a in Offers(r)(p) && b in Offers(r)(q) && Tied(r.locale, a, b)
    ensures !Commute(r.locale, Offers(r), p, q, a)
  {
    var u, v := TiedWith(r.locale, a, Offers(r)(p)), TiedWith(r.locale, a, Offers(r)(q));
    TiedWithMembers(r.locale, a, Offers(r)(p));
    TiedWithMembers(r.locale, a, Offers(r)(q));
    RanksTotal(r.locale, a, a);
    assert a in u && b in v;
    assert u[0] in u && v[0] in v;
    var x := OfferedBy(r, p, p.capabilities, u[0]);
    var y := OfferedBy(r, q, q.capabilities, v[0]);
    assert (u + v)[0] == u[0] && (v + u)[0] == v[0];
  }

  /**
   * With unique provider identities, the candidate list is the same for every order of the inventory exactly when no two
   * candidates of different providers tie.
   */
  lemma InventoryOrderExactlyWhen(r: Resolving, ps: seq<Provider>)
    requires GoodLocale(r.locale) && UniqueProviders(ps)
    ensures (forall qs :: multiset(qs) == multiset(ps) ==> Ranked(r, qs) == Ranked(r, ps)) <==>
      NoTiesAcross(r.locale, AllCandidates(r, ps))
  {
    OrderIrrelevantExactlyWhen(r, ps);
    if NoTiesAcross(r.locale, AllCandidates(r, ps)) {
      forall p, q, c | p in ps && q in ps ensures Commute(r.locale, Offers(r), p, q, c) {
        ApartCommute(r, ps, p, q, c);
      }
    } else {
      var a, b :| a in AllCandidates(r, ps) && b in AllCandidates(r, ps) && Tied(r.locale, a, b) && a.providerId != b.providerId;
      var p := CandidatesComeFrom(r, ps, a);
      var q := CandidatesComeFrom(r, ps, b);
      var x := OfferedBy(r, p, p.capabilities, a);
      var y := OfferedBy(r, q, q.capabilities, b);
      TiesDoNotCommute(r, p, q, a, b);
    }
  }

  lemma ApartCommute(r: Resolving, ps: seq<Provider>, p: Provider, q: Provider, c: Candidate)
    requires GoodLocale(r.locale) && UniqueProviders(ps) && p in ps && q in ps && NoTiesAcross(r.locale, AllCandidates(r, ps))
    ensures Commute(r.locale, Offers(r), p, q, c)
  {
    if p != q {
      CandidatesInclude(r, ps, p);
      CandidatesInclude(r, ps, q);
      forall a, b | a in Offers(r)(p) && b in Offers(r)(q) ensures !Tied(r.locale, a, b) {
        var x := OfferedBy(r, p, p.capabilities, a);
        var y := OfferedBy(r, q, q.capabilities, b);
      }
      CommuteWithoutTies(r, p, q, c);
    }
  }

  /** Each (provider, capability) pair names one candidate. */
  ghost predicate UniquePairs(cs: seq<Candidate>)
  {
    forall a, b :: a in cs && b in cs && a.providerId == b.providerId && a.capabilityId == b.capabilityId ==> a == b
  }

  /** With unique (provider, capability) pairs, resolving the same inventory in any order gives the same candidate list. */
  lemma RankingIgnoresInventoryOrder(r: Resolving, ps: seq<Provider>, qs: seq<Provider>)
    requires GoodLocale(r.locale) && Separating(r.locale) && UniquePairs(AllCandidates(r, ps)) && multiset(ps) == multiset(qs)
    ensures Ranked(r, ps) == Ranked(r, qs) && Bounded(Ranked(r, ps)) == Bounded(Ranked(r, qs))
  {
    ReorderedCandidates(Offers(r), ps, qs);
    assert NoTies(r.locale, AllCandidates(r, ps));
    SameSort(r.locale, AllCandidates(r, ps), AllCandidates(r, qs));
  }

  // ------------------------------------------------------- choosing a candidate

  /** The planner's selection filter; an absent choice matches everything. */
  predicate Selectable(c: Candidate, providerId: Option<Str>, capabilityId: Option<Str>)
  {
    && c.eligible
    && (providerId.Some? ==> c.providerId == providerId.value)
    && (capabilityId.Some? ==> c.capabilityId == capabilityId.value)
  }

  function FirstSelectable(cs: seq<Candidate>, providerId: Option<Str>, capabilityId: Option<Str>): (r: Option<Candidate>)
    ensures r.Some? ==> r.value in cs && Selectable(r.value, providerId, capabilityId)
    ensures r.None? ==> forall c :: c in cs ==> !Selectable(c, providerId, capabilityId)
  {
    if cs == [] then None
    else if Selectable(cs[0], providerId, capabilityId) then Some(cs[0])
    else FirstSelectable(cs[1..], providerId, capabilityId)
  }

  lemma {:induction false} FirstIsLeast(locale: Locale, cs: seq<Candidate>, providerId: Option<Str>, capabilityId: Option<Str>, c: Candidate)
    requires GoodLocale(locale) && SortedByRank(locale, cs) && c in cs && Selectable(c, providerId, capabilityId)
    ensures FirstSelectable(cs, providerId, capabilityId).Some?
    ensures RanksNotAfter(locale, FirstSelectable(cs, providerId, capabilityId).value, c)
  {
    var i :| 0 <= i < |cs| && cs[i] == c;
    if Selectable(cs[0], providerId, capabilityId) {
      if i == 0 { RanksTotal(locale, c, c); }
    } else {
      assert cs[1..][i - 1] == c;
      FirstIsLeast(locale, cs[1..], providerId, capabilityId, c);
    }
  }

  /** The planner takes the best retained match: no other match has a higher score, nor the same score and an earlier place. */
  lemma PlannerTakesTheBest(r: Resolving, providers: seq<Provider>, providerId: Option<Str>, capabilityId: Option<Str>, c: Candidate)
    requires GoodLocale(r.locale)
    requires c in Bounded(Ranked(r, providers)) && Selectable(c, providerId, capabilityId)
    ensures var best := FirstSelectable(Bounded(Ranked(r, providers)), providerId, capabilityId);
      && best.Some? && best.value.score >= c.score
      && (best.value.score == c.score ==>
            && r.locale.notAfter(best.value.providerId, c.providerId)
            && (r.locale.notAfter(c.providerId, best.value.providerId) ==>
                  r.locale.notAfter(best.value.capabilityId, c.capabilityId)))
  {
    SortRanks(r.locale, AllCandidates(r, providers));
    FirstIsLeast(r.locale, Bounded(Ranked(r, providers)), providerId, capabilityId, c);
  }
}
