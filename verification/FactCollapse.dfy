/**
 Keeping one fact per issuer and metric (nlquery.py): the pairwise comparator folded over the facts in some
 order, and the SQL window that replaced the fold.
 */
module FactCollapse {
  import opened Json

  /** A headline fact of one issuer and metric; ids are only compared with each other. */
  datatype Fact = Fact(id: int, provenance: string, createdAt: Option<int>)

  function Tier(f: Fact): int { if f.provenance == "run" || f.provenance == "fixture" then 1 else 0 }

  /** `_better_fact`. */
  predicate Better(prev: Option<Fact>, fact: Fact) {
    if prev.None? then true
    else if Tier(fact) != Tier(prev.value) then Tier(fact) > Tier(prev.value)
    else fact.createdAt.Some? && prev.value.createdAt.Some? && fact.createdAt.value > prev.value.createdAt.value
  }

  function Collapse(kept: Option<Fact>, facts: seq<Fact>): Option<Fact>
    decreases |facts|
  {
    if facts == [] then kept
    else Collapse(if Better(kept, facts[0]) then Some(facts[0]) else kept, facts[1..])
  }

  /** The window's order: tier descending, created_at descending with nulls last, id descending. */
  predicate Before(a: Fact, b: Fact) {
    if Tier(a) != Tier(b) then Tier(a) > Tier(b)
    else if a.createdAt != b.createdAt then
      a.createdAt.Some? && (b.createdAt.None? || a.createdAt.value > b.createdAt.value)
    else a.id > b.id
  }

  /** The row the window numbers 1. */
  ghost predicate RowOne(facts: seq<Fact>, w: Fact) {
    w in facts && forall f | f in facts && f != w :: Before(w, f)
  }

  /** Computed by a run, or a fixture of one; anything else is seed data. */
  predicate Derived(f: Fact) { f.provenance in {"run", "fixture"} }

  /** Older, when a missing date is older than any, or of the same date and entered before. */
  predicate Behind(f: Fact, w: Fact) {
    match (f.createdAt, w.createdAt)
    case (None, Some(_)) => true
    case (Some(_), None) => false
    case (Some(s), Some(t)) => s < t || (s == t && f.id < w.id)
    case (None, None) => f.id < w.id
  }

  /** The kept row is a derived one where there is any, and among its kind all others are behind it. */
  lemma RowOneIff(facts: seq<Fact>, w: Fact)
    ensures RowOne(facts, w) <==>
            && w in facts && (forall f | f in facts :: Derived(f) ==> Derived(w))
            && (forall f | f in facts && f != w :: (Derived(f) <==> Derived(w)) ==> Behind(f, w))
  {
    forall f ensures Before(w, f) <==> (Derived(w) && !Derived(f)) || ((Derived(w) <==> Derived(f)) && Behind(f, w)) {
    }
  }

  ghost predicate DistinctIds(facts: seq<Fact>) {
    forall i, j | 0 <= i < j < |facts| :: facts[i].id != facts[j].id
  }

  ghost predicate Reordering(p: seq<Fact>, facts: seq<Fact>) { multiset(p) == multiset(facts) }

  ghost predicate InTopTier(facts: seq<Fact>, f: Fact) { f in facts && forall g | g in facts :: Tier(g) <= Tier(f) }

  predicate StrictlyNewer(m: Fact, f: Fact) {
    m.createdAt.Some? && f.createdAt.Some? && m.createdAt.value > f.createdAt.value
  }

  /** One fact of the top tier is strictly newer than all the others of that tier. */
  ghost predicate OneNewest(facts: seq<Fact>) {
    exists m :: InTopTier(facts, m) && forall f | InTopTier(facts, f) && f != m :: StrictlyNewer(m, f)
  }

  lemma SameElements(p: seq<Fact>, facts: seq<Fact>)
    requires Reordering(p, facts)
    ensures forall f :: f in p <==> f in facts
  {
    forall f ensures f in p <==> f in facts {
      assert f in p <==> f in multiset(p);
      assert f in facts <==> f in multiset(facts);
    }
  }

  /** A fact that beats every other one is kept whatever the order. */
  lemma {:induction false} BeaterWins(kept: Option<Fact>, p: seq<Fact>, w: Fact)
    requires kept == Some(w) || w in p
    requires forall f | f in p && f != w :: Better(Some(f), w) && !Better(Some(w), f)
    requires kept.Some? && kept.value != w ==> Better(kept, w)
    requires kept == Some(w) ==> !Better(Some(w), w)
    ensures Collapse(kept, p) == Some(w)
    decreases |p|
  {
    if p != [] {
      BeaterWins(if Better(kept, p[0]) then Some(p[0]) else kept, p[1..], w);
    }
  }

  /** A fact passed over and gone is never kept. */
  lemma {:induction false} GoneStaysGone(kept: Fact, p: seq<Fact>, w: Fact)
    requires kept != w && w !in p
    ensures Collapse(Some(kept), p) != Some(w)
    decreases |p|
  {
    if p != [] {
      GoneStaysGone(if Better(Some(kept), p[0]) then p[0] else kept, p[1..], w);
    }
  }

  /** Taking one fact out leaves the others, once each. */
  lemma TakeOut(facts: seq<Fact>, f: Fact) returns (rest: seq<Fact>)
    requires f in facts && DistinctIds(facts)
    ensures Reordering([f] + rest, facts) && DistinctIds(rest) && f !in rest
    ensures forall g | g in facts && g != f :: g in rest
  {
    var i :| 0 <= i < |facts| && facts[i] == f;
    rest := facts[..i] + facts[i + 1..];
    assert facts == facts[..i] + [f] + facts[i + 1..];
  }

  /** Some order puts two given facts first, and the second nowhere else. */
  lemma TwoFirst(facts: seq<Fact>, f: Fact, w: Fact) returns (others: seq<Fact>)
    requires f in facts && w in facts && f != w && DistinctIds(facts)
    ensures Reordering([f, w] + others, facts) && w !in others
  {
    var rest := TakeOut(facts, f);
    others := TakeOut(rest, w);
    assert [f, w] + others == [f] + ([w] + others);
  }

  lemma NewestWins(facts: seq<Fact>, w: Fact, p: seq<Fact>)
    requires RowOne(facts, w) && OneNewest(facts) && Reordering(p, facts)
    ensures Collapse(None, p) == Some(w)
  {
    var m :| InTopTier(facts, m) && forall f | InTopTier(facts, f) && f != m :: StrictlyNewer(m, f);
    assert InTopTier(facts, w);
    assert m == w;
    SameElements(p, facts);
    forall f | f in p && f != w ensures Better(Some(f), w) && !Better(Some(w), f) {
      assert Tier(f) == Tier(w) ==> InTopTier(facts, f);
    }
    BeaterWins(None, p, w);
  }

  lemma RivalExists(facts: seq<Fact>, w: Fact) returns (f: Fact)
    requires InTopTier(facts, w) && !OneNewest(facts)
    ensures f in facts && f != w && !Better(Some(f), w)
  {
    f :| InTopTier(facts, f) && f != w && !StrictlyNewer(w, f);
    assert Tier(f) <= Tier(w) && Tier(w) <= Tier(f);
  }

  lemma SomeOrderDisagrees(facts: seq<Fact>, w: Fact) returns (p: seq<Fact>)
    requires DistinctIds(facts) && InTopTier(facts, w) && !OneNewest(facts)
    ensures Reordering(p, facts) && Collapse(None, p) != Some(w)
  {
    var f := RivalExists(facts, w);
    var others := TwoFirst(facts, f, w);
    p := [f, w] + others;
    GoneStaysGone(f, others, w);
    hide InTopTier, OneNewest, DistinctIds;
    assert p[1..] == [w] + others && p[1..][1..] == others;
    assert Collapse(Some(f), p[1..]) == Collapse(Some(f), others);
  }

  /**
   The fold picks the window's row 1 in every order of the facts exactly when one top-tier fact is strictly newer
   than all the others of its tier; a missing date or a tied newest date makes some order disagree.
   */
  lemma WindowIsFold(facts: seq<Fact>, w: Fact)
    requires DistinctIds(facts) && RowOne(facts, w)
    ensures (forall p | Reordering(p, facts) :: Collapse(None, p) == Some(w)) <==> OneNewest(facts)
  {
    if OneNewest(facts) {
      forall p | Reordering(p, facts) ensures Collapse(None, p) == Some(w) {
        NewestWins(facts, w, p);
      }
    } else {
      assert InTopTier(facts, w);
      var p := SomeOrderDisagrees(facts, w);
    }
  }

  /** The window always has a row 1: distinct ids make its order total. */
  lemma {:induction false} RowOneExists(facts: seq<Fact>)
    requires facts != [] && DistinctIds(facts)
    ensures exists w :: RowOne(facts, w)
  {
    if |facts| == 1 {
      assert RowOne(facts, facts[0]);
    } else {
      RowOneExists(facts[1..]);
      var v :| RowOne(facts[1..], v);
      assert forall f | f in facts :: f == facts[0] || f in facts[1..];
      assert RowOne(facts, if Before(facts[0], v) then facts[0] else v);
    }
  }

  /** Dates that are all present and differ within a tier are enough for the two to agree. */
  lemma DistinctDatesAgree(facts: seq<Fact>, w: Fact, p: seq<Fact>)
    requires DistinctIds(facts) && RowOne(facts, w) && Reordering(p, facts)
    requires forall f | f in facts :: f.createdAt.Some?
    requires forall f, g | f in facts && g in facts && f != g && Tier(f) == Tier(g) :: f.createdAt != g.createdAt
    ensures Collapse(None, p) == Some(w)
  {
    assert InTopTier(facts, w) && forall f | InTopTier(facts, f) && f != w :: StrictlyNewer(w, f);
    WindowIsFold(facts, w);
  }
}
