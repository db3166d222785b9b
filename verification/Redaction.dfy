/** Structural redaction of handler output. */
module Redaction {
  import opened Strings
  import opened JsonText

  /**
   * The manifest's redaction policy together with the regular-expression tests the source applies to
   * names and text. The tests stay abstract: every result below holds for all of them.
   */
  datatype Policy = Policy(
    protectedName: Str -> bool,    // declared fields, and names that look like secrets
    referenceName: Str -> bool,    // evidence or result references the policy preserves
    rawName: Str -> bool,          // raw-output fields, when the policy lists that pattern
    text: Str -> Str)              // credential patterns replaced inside text

  function Mask(): Str { Lit("[REDACTED]") }

  /** The text redactor is idempotent and leaves the mask alone. */
  ghost predicate GoodText(p: Policy)
  {
    p.text(Mask()) == Mask() && forall s :: p.text(p.text(s)) == p.text(s)
  }

  function Redacted(p: Policy, v: Json): Json
    decreases v, 1
  {
    match v
    case String(s) => String(p.text(s))
    case Array(items) => Array(RedactedItems(p, items))
    case Object(members) => Object(SortByKey(RedactedMembers(p, members)))
    case _ => v
  }

  function RedactedItems(p: Policy, items: seq<Json>): (r: seq<Json>)
    ensures |r| == |items|
    ensures forall i :: 0 <= i < |items| ==> r[i] == Redacted(p, items[i])
    decreases items, 0
  {
    if items == [] then [] else [Redacted(p, items[0])] + RedactedItems(p, items[1..])
  }

  function RedactedMember(p: Policy, m: Entry<Json>): (r: Entry<Json>)
    ensures r.key == m.key
    decreases m, 2
  {
    if p.referenceName(m.key) then m
    else if p.protectedName(m.key) then Entry(m.key, String(Mask()))
    else if p.rawName(m.key) && m.value.String? then Entry(m.key, String(Mask()))
    else Entry(m.key, Redacted(p, m.value))
  }

  function RedactedMembers(p: Policy, members: seq<Entry<Json>>): (r: seq<Entry<Json>>)
    ensures |r| == |members|
    ensures forall i :: 0 <= i < |members| ==> r[i] == RedactedMember(p, members[i])
    decreases members, 0
  {
    if members == [] then [] else [RedactedMember(p, members[0])] + RedactedMembers(p, members[1..])
  }

  // ------------------------------------------------------- the traversal of the source

  lemma {:induction false} InsertCommutes(p: Policy, e: Entry<Json>, es: seq<Entry<Json>>)
    ensures RedactedMembers(p, InsertByKey(e, es)) == InsertByKey(RedactedMember(p, e), RedactedMembers(p, es))
  {
    if es == [] || Leq(e.key, es[0].key) {
    } else {
      InsertCommutes(p, e, es[1..]);
      assert InsertByKey(e, es)[1..] == InsertByKey(e, es[1..]);
    }
  }

  lemma {:induction false} SortCommutes(p: Policy, es: seq<Entry<Json>>)
    ensures RedactedMembers(p, SortByKey(es)) == SortByKey(RedactedMembers(p, es))
  {
    if es != [] {
      SortCommutes(p, es[1..]);
      InsertCommutes(p, es[0], SortByKey(es[1..]));
    }
  }

  lemma ItemsAre(p: Policy, items: seq<Json>, mapped: seq<Json>)
    requires |mapped| == |items| && forall k :: 0 <= k < |items| ==> mapped[k] == Redacted(p, items[k])
    ensures mapped == RedactedItems(p, items)
  {
  }

  lemma MembersAre(p: Policy, members: seq<Entry<Json>>, output: seq<Entry<Json>>)
    requires |output| == |members| && forall k :: 0 <= k < |members| ==> output[k] == RedactedMember(p, members[k])
    ensures output == RedactedMembers(p, members)
  {
  }

  /** `redactValue`: maps arrays and fills a fresh object in key order. */
  method RedactValue(p: Policy, value: Json) returns (r: Json)
    ensures r == Redacted(p, value)
    decreases value
  {
    match value {
      case String(s) => r := String(p.text(s));
      case Array(items) =>
        var mapped: seq<Json> := [];
        for i := 0 to |items|
          invariant |mapped| == i && forall k :: 0 <= k < i ==> mapped[k] == Redacted(p, items[k])
        {
          var item := RedactValue(p, items[i]);
          mapped := mapped + [item];
        }
        ItemsAre(p, items, mapped);
        r := Array(mapped);
      case Object(members) =>
        var sorted := SortByKey(members);
        var output: seq<Entry<Json>> := [];
        for i := 0 to |sorted|
          invariant |output| == i && forall k :: 0 <= k < i ==> output[k] == RedactedMember(p, sorted[k])
        {
          var m := sorted[i];
          assert m in members;
          if p.referenceName(m.key) {
            output := output + [m];
          } else if p.protectedName(m.key) || (p.rawName(m.key) && m.value.String?) {
            output := output + [Entry(m.key, String(Mask()))];
          } else {
            var field := RedactValue(p, m.value);
            output := output + [Entry(m.key, field)];
          }
        }
        MembersAre(p, sorted, output);
        SortCommutes(p, members);
        r := Object(output);
      case _ => r := value;
    }
  }

  // ------------------------------------------------------- what redaction achieves

  /** Nothing at any depth is left for the policy to hide, preserved references excepted. */
  ghost predicate Scrubbed(p: Policy, v: Json)
  {
    match v
    case String(s) => p.text(s) == s
    case Array(items) => forall x :: x in items ==> Scrubbed(p, x)
    case Object(members) => forall m :: m in members && !p.referenceName(m.key) ==>
      if p.protectedName(m.key) || (p.rawName(m.key) && m.value.String?) then m.value == String(Mask())
      else Scrubbed(p, m.value)
    case _ => true
  }

  predicate Ordered(es: seq<Entry<Json>>)
  {
    forall i :: 0 <= i < |es| - 1 ==> Leq(es[i].key, es[i + 1].key)
  }

  /** Objects outside preserved and masked fields list their keys in order. */
  ghost predicate KeysOrdered(p: Policy, v: Json)
  {
    match v
    case Array(items) => forall x :: x in items ==> KeysOrdered(p, x)
    case Object(members) => Ordered(members)
      && forall m :: m in members && !p.referenceName(m.key) && !p.protectedName(m.key) ==> KeysOrdered(p, m.value)
    case _ => true
  }

  lemma {:induction false} InsertOrdered(e: Entry<Json>, es: seq<Entry<Json>>)
    requires Ordered(es)
    ensures Ordered(InsertByKey(e, es))
    ensures InsertByKey(e, es)[0] == e || (es != [] && InsertByKey(e, es)[0] == es[0])
  {
    if es == [] || Leq(e.key, es[0].key) {
    } else {
      LeqTotal(e.key, es[0].key);
      InsertOrdered(e, es[1..]);
    }
  }

  lemma {:induction false} SortOrdered(es: seq<Entry<Json>>)
    ensures Ordered(SortByKey(es))
  {
    if es != [] {
      SortOrdered(es[1..]);
      InsertOrdered(es[0], SortByKey(es[1..]));
    }
  }

  lemma {:induction false} SortFixesOrdered(es: seq<Entry<Json>>)
    requires Ordered(es)
    ensures SortByKey(es) == es
  {
    if es != [] {
      SortFixesOrdered(es[1..]);
      assert es == [es[0]] + es[1..];
    }
  }

  lemma {:induction false} RedactedIsScrubbed(p: Policy, v: Json)
    requires GoodText(p)
    ensures Scrubbed(p, Redacted(p, v)) && KeysOrdered(p, Redacted(p, v))
  {
    match v {
      case Array(items) =>
        var r := RedactedItems(p, items);
        forall x | x in r ensures Scrubbed(p, x) && KeysOrdered(p, x) {
          var i :| 0 <= i < |r| && r[i] == x;
          RedactedIsScrubbed(p, items[i]);
        }
      case Object(members) =>
        var r := RedactedMembers(p, members);
        SortOrdered(r);
        forall m | m in SortByKey(r) && !p.referenceName(m.key)
          ensures if p.protectedName(m.key) || (p.rawName(m.key) && m.value.String?) then m.value == String(Mask())
                  else Scrubbed(p, m.value)
          ensures KeysOrdered(p, m.value)
        {
          var i :| 0 <= i < |r| && r[i] == m;
          RedactedIsScrubbed(p, members[i].value);
        }
      case _ =>
    }
  }

  lemma {:induction false} ScrubbedIsFixed(p: Policy, v: Json)
    requires Scrubbed(p, v) && KeysOrdered(p, v)
    ensures Redacted(p, v) == v
  {
    match v {
      case Array(items) =>
        forall i | 0 <= i < |items| ensures Redacted(p, items[i]) == items[i] {
          assert items[i] in items;
          ScrubbedIsFixed(p, items[i]);
        }
        assert RedactedItems(p, items) == items;
      case Object(members) =>
        forall i | 0 <= i < |members| ensures RedactedMember(p, members[i]) == members[i] {
          var m := members[i];
          assert m in members;
          if !p.referenceName(m.key) && !p.protectedName(m.key) && !(p.rawName(m.key) && m.value.String?) {
            ScrubbedIsFixed(p, m.value);
          }
        }
        assert RedactedMembers(p, members) == members;
        SortFixesOrdered(members);
      case _ =>
    }
  }

  lemma RedactionIdempotent(p: Policy, v: Json)
    requires GoodText(p)
    ensures Redacted(p, Redacted(p, v)) == Redacted(p, v)
  {
    RedactedIsScrubbed(p, v);
    ScrubbedIsFixed(p, Redacted(p, v));
  }

  // ------------------------------------------------------- what redaction keeps

  /**
   * Outside replaced and preserved fields, `w` has the arrays, the key sets and the values of `v`, with only its texts
   * rewritten by the text redactor.
   */
  ghost predicate KeepsShape(p: Policy, v: Json, w: Json)
    decreases v, 1
  {
    match v
    case String(s) => w == String(p.text(s))
    case Array(items) =>
      w.Array? && |w.items| == |items| && forall i :: 0 <= i < |items| ==> KeepsShape(p, items[i], w.items[i])
    case Object(members) =>
      && w.Object? && |w.members| == |members|
      && (forall n :: n in w.members ==> exists m :: m in members && m.key == n.key)
      && (forall m :: m in members ==> exists n :: n in w.members && MemberKept(p, m, n))
    case _ => w == v
  }

  ghost predicate MemberKept(p: Policy, m: Entry<Json>, n: Entry<Json>)
    decreases m, 0
  {
    && m.key == n.key
    && if p.referenceName(m.key) then n == m
       else if p.protectedName(m.key) || (p.rawName(m.key) && m.value.String?) then n.value == String(Lit("[REDACTED]"))
       else KeepsShape(p, m.value, n.value)
  }

  lemma {:induction false} RedactedKeepsShape(p: Policy, v: Json)
    ensures KeepsShape(p, v, Redacted(p, v))
  {
    match v {
      case Array(items) =>
        forall i | 0 <= i < |items| ensures KeepsShape(p, items[i], Redacted(p, items[i])) {
          RedactedKeepsShape(p, items[i]);
        }
      case Object(members) =>
        forall m | m in members ensures MemberKept(p, m, RedactedMember(p, m)) {
          RedactedKeepsShape(p, m.value);
        }
        MembersKeepShape(p, members);
      case _ =>
    }
  }

  lemma MembersKeepShape(p: Policy, members: seq<Entry<Json>>)
    requires forall m :: m in members ==> MemberKept(p, m, RedactedMember(p, m))
    ensures KeepsShape(p, Object(members), Redacted(p, Object(members)))
  {
    var r := RedactedMembers(p, members);
    forall n | n in SortByKey(r) ensures exists m :: m in members && m.key == n.key {
      var i :| 0 <= i < |r| && r[i] == n;
      assert members[i] in members;
    }
    forall m | m in members ensures exists n :: n in SortByKey(r) && MemberKept(p, m, n) {
      var i :| 0 <= i < |members| && members[i] == m;
      assert r[i] in SortByKey(r) && MemberKept(p, m, r[i]);
    }
  }

  /** `outputItemCount`: array elements at every depth. */
  function ItemCount(v: Json): nat
    decreases v, 1
  {
    match v
    case Array(items) => |items| + ItemsTotal(items)
    case Object(members) => MembersTotal(members)
    case _ => 0
  }

  function ItemsTotal(items: seq<Json>): nat
    decreases items, 0
  {
    if items == [] then 0 else ItemCount(items[0]) + ItemsTotal(items[1..])
  }

  function MembersTotal(members: seq<Entry<Json>>): nat
    decreases members, 0
  {
    if members == [] then 0 else ItemCount(members[0].value) + MembersTotal(members[1..])
  }

  lemma {:induction false} InsertTotal(e: Entry<Json>, es: seq<Entry<Json>>)
    ensures MembersTotal(InsertByKey(e, es)) == ItemCount(e.value) + MembersTotal(es)
  {
    if es == [] || Leq(e.key, es[0].key) {
    } else {
      InsertTotal(e, es[1..]);
    }
  }

  lemma {:induction false} SortTotal(es: seq<Entry<Json>>)
    ensures MembersTotal(SortByKey(es)) == MembersTotal(es)
  {
    if es != [] {
      SortTotal(es[1..]);
      InsertTotal(es[0], SortByKey(es[1..]));
    }
  }

  /** Redaction never pushes an output over its item limit. */
  lemma {:induction false} RedactedItemCount(p: Policy, v: Json)
    ensures ItemCount(Redacted(p, v)) <= ItemCount(v)
    decreases v, 1
  {
    match v {
      case Array(items) => RedactedItemsTotal(p, items);
      case Object(members) =>
        RedactedMembersTotal(p, members);
        SortTotal(RedactedMembers(p, members));
      case _ =>
    }
  }

  lemma {:induction false} RedactedItemsTotal(p: Policy, items: seq<Json>)
    ensures ItemsTotal(RedactedItems(p, items)) <= ItemsTotal(items)
    decreases items, 0
  {
    if items != [] {
      RedactedItemCount(p, items[0]);
      RedactedItemsTotal(p, items[1..]);
    }
  }

  lemma {:induction false} RedactedMembersTotal(p: Policy, members: seq<Entry<Json>>)
    ensures MembersTotal(RedactedMembers(p, members)) <= MembersTotal(members)
    decreases members, 0
  {
    if members != [] {
      RedactedItemCount(p, members[0].value);
      RedactedMembersTotal(p, members[1..]);
    }
  }
}
