/**
 Artifact references of an analysis context (context_lineage.py). A context stores its references as a list in
 canonical key order; producers finishing in any order, and retries, converge on the same list.
 */
module ContextLineage {
  import opened Json
  import opened Strings

  /** In alphabetical order of the stored names, so that comparing ranks compares names. */
  datatype Kind =
    | AlertEvent | Decision | Document | DocumentChunk | Insight | IssuerRun | MarketSnapshot | ModelCheckpoint | Portfolio
    | ReportVersion | ResearchJob | SourceManifest | Sponsor

  datatype Ref = Ref(kind: Kind, id: string, version: Option<string>)

  /** The bounds of the reference model: no empty identifier and no empty version. */
  predicate ValidRef(r: Ref) { r.id != "" && (r.version.Some? ==> r.version.value != "") }

  predicate ValidRefs(rs: seq<Ref>) { forall r | r in rs :: ValidRef(r) }

  function Elements(rs: seq<Ref>): set<Ref> { set r | r in rs }

  // ---------------------------------------------------------------- the canonical order

  function Rank(k: Kind): nat {
    match k
    case AlertEvent => 0 case Decision => 1 case Document => 2 case DocumentChunk => 3 case Insight => 4 case IssuerRun => 5
    case MarketSnapshot => 6 case ModelCheckpoint => 7 case Portfolio => 8 case ReportVersion => 9 case ResearchJob => 10
    case SourceManifest => 11 case Sponsor => 12
  }

  datatype Key = Key(kind: Kind, id: string, version: string)

  function KeyOf(r: Ref): Key { Key(r.kind, r.id, match r.version case Some(v) => v case None => "") }

  predicate Before(a: Ref, b: Ref) {
    var (x, y) := (KeyOf(a), KeyOf(b));
    || Rank(x.kind) < Rank(y.kind)
    || (x.kind == y.kind && (Below(x.id, y.id) || (x.id == y.id && Below(x.version, y.version))))
  }

  /** The key order is total, and the key determines the reference. */
  lemma BeforeTotal(a: Ref, b: Ref)
    requires ValidRef(a) && ValidRef(b)
    ensures Before(a, b) || Before(b, a) || a == b
    ensures !(Before(a, b) && Before(b, a)) && !Before(a, a)
    ensures KeyOf(a) == KeyOf(b) <==> a == b
  {
    BelowTotal(a.id, b.id);
    BelowTotal(KeyOf(a).version, KeyOf(b).version);
    BelowTotal(a.id, a.id);
    BelowTotal(KeyOf(a).version, KeyOf(a).version);
  }

  lemma BeforeTransitive(a: Ref, b: Ref, c: Ref)
    requires Before(a, b) && Before(b, c)
    ensures Before(a, c)
  {
    var (x, y, z) := (KeyOf(a), KeyOf(b), KeyOf(c));
    if x.kind == y.kind && y.kind == z.kind {
      if Below(x.id, y.id) && Below(y.id, z.id) { BelowTransitive(x.id, y.id, z.id); }
      if Below(x.version, y.version) && Below(y.version, z.version) { BelowTransitive(x.version, y.version, z.version); }
    }
  }

  /** The names the kinds are stored under. */
  function KindText(k: Kind): string {
    match k
    case AlertEvent => "alert_event" case Decision => "decision" case Document => "document" case DocumentChunk => "document_chunk"
    case Insight => "insight" case IssuerRun => "issuer_run" case MarketSnapshot => "market_snapshot"
    case ModelCheckpoint => "model_checkpoint" case Portfolio => "portfolio" case ReportVersion => "report_version"
    case ResearchJob => "research_job" case SourceManifest => "source_manifest" case Sponsor => "sponsor"
  }

  /** The first characters of a kind's name, as far as they tell it from the others. */
  lemma KindStarts(k: Kind)
    ensures |KindText(k)| >= 7
    ensures (KindText(k)[0], KindText(k)[1], KindText(k)[2]) == match k
            case AlertEvent => ('a', 'l', 'e') case Decision => ('d', 'e', 'c') case Document => ('d', 'o', 'c') case DocumentChunk => ('d', 'o', 'c')
            case Insight => ('i', 'n', 's') case IssuerRun => ('i', 's', 's') case MarketSnapshot => ('m', 'a', 'r')
            case ModelCheckpoint => ('m', 'o', 'd') case Portfolio => ('p', 'o', 'r') case ReportVersion => ('r', 'e', 'p')
            case ResearchJob => ('r', 'e', 's') case SourceManifest => ('s', 'o', 'u') case Sponsor => ('s', 'p', 'o')
  {
  }

  lemma BelowAt(a: string, b: string, k: nat)
    requires k <= |a| && k < |b| && a[..k] == b[..k] && (k == |a| || a[k] < b[k])
    ensures Below(a, b)
  {
    hide Below;
    BelowIff(a, b);
  }

  /** Comparing kinds by rank is comparing their stored names. */
  lemma RankIsName(a: Kind, b: Kind)
    ensures Rank(a) < Rank(b) <==> Below(KindText(a), KindText(b))
  {
    hide Below;
    if Rank(a) < Rank(b) {
      RankBelow(a, b);
    } else if Rank(b) < Rank(a) {
      RankBelow(b, a);
    }
    BelowTotal(KindText(a), KindText(b));
  }

  lemma RankBelow(a: Kind, b: Kind)
    requires Rank(a) < Rank(b)
    ensures Below(KindText(a), KindText(b))
  {
    hide Below;
    KindStarts(a);
    KindStarts(b);
    var (x, y) := (KindText(a), KindText(b));
    if a.Document? && b.DocumentChunk? {
      assert x == "document" && y[..8] == "document";
      BelowAt(x, y, 8);
    } else {
      hide KindText, Rank;
      BelowAt(x, y, if x[0] != y[0] then 0 else if x[1] != y[1] then 1 else 2);
    }
  }

  /** References are ordered by the name of their kind, then by identifier, then by version, a missing one first. */
  lemma BeforeIff(a: Ref, b: Ref)
    requires ValidRef(a) && ValidRef(b)
    ensures Before(a, b) <==>
            || Below(KindText(a.kind), KindText(b.kind))
            || (a.kind == b.kind && Below(a.id, b.id))
            || (a.kind == b.kind && a.id == b.id && b.version.Some? && (a.version.None? || Below(a.version.value, b.version.value)))
  {
    RankIsName(a.kind, b.kind);
    hide KindText;
  }

  predicate Canonical(rs: seq<Ref>) { forall i, j | 0 <= i < j < |rs| :: Before(rs[i], rs[j]) }

  lemma CanonicalHead(rs: seq<Ref>, r: Ref)
    requires Canonical(rs) && rs != [] && r in rs
    ensures r == rs[0] || Before(rs[0], r)
  {
  }

  /** A set of references has one canonical list. */
  lemma {:induction false} CanonicalUnique(a: seq<Ref>, b: seq<Ref>)
    requires Canonical(a) && Canonical(b) && ValidRefs(a) && ValidRefs(b) && Elements(a) == Elements(b)
    ensures a == b
  {
    assert b != [] ==> b[0] in Elements(b);
    if a != [] {
      assert a[0] in Elements(a) && a[0] in b;
      assert b[0] in Elements(b) && b[0] in a;
      CanonicalHead(a, b[0]);
      CanonicalHead(b, a[0]);
      BeforeTotal(a[0], b[0]);
      TailElements(a);
      TailElements(b);
      CanonicalUnique(a[1..], b[1..]);
      assert a == [a[0]] + a[1..] && b == [b[0]] + b[1..];
    }
  }

  lemma TailElements(rs: seq<Ref>)
    requires Canonical(rs) && ValidRefs(rs) && rs != []
    ensures Elements(rs[1..]) == Elements(rs) - {rs[0]}
  {
    forall r | r in rs[1..] ensures r != rs[0] {
      BeforeTotal(rs[0], rs[0]);
    }
    assert rs == [rs[0]] + rs[1..];
  }

  // ---------------------------------------------------------------- merging

  function Insert(rs: seq<Ref>, r: Ref): seq<Ref> {
    if rs == [] then [r]
    else if rs[0] == r then rs
    else if Before(r, rs[0]) then [r] + rs
    else [rs[0]] + Insert(rs[1..], r)
  }

  lemma Leads(r: Ref, rest: seq<Ref>)
    requires Canonical(rest) && forall x | x in Elements(rest) :: Before(r, x)
    ensures Canonical([r] + rest) && Elements([r] + rest) == {r} + Elements(rest)
  {
    hide Before;
    forall k | 0 <= k < |rest| ensures Before(r, rest[k]) {
      assert rest[k] in Elements(rest);
    }
  }

  lemma {:induction false} InsertFacts(rs: seq<Ref>, r: Ref)
    requires Canonical(rs) && ValidRefs(rs) && ValidRef(r)
    ensures var out := Insert(rs, r); Canonical(out) && ValidRefs(out) && Elements(out) == Elements(rs) + {r}
  {
    if rs == [] || rs[0] == r {
    } else if Before(r, rs[0]) {
      InsertsFirst(rs, r);
    } else {
      BeforeTotal(r, rs[0]);
      InsertFacts(rs[1..], r);
      hide Before;
      Leads(rs[0], rs[1..]);
      assert rs == [rs[0]] + rs[1..];
      Leads(rs[0], Insert(rs[1..], r));
    }
  }

  lemma InsertsFirst(rs: seq<Ref>, r: Ref)
    requires rs != [] && Canonical(rs) && ValidRefs(rs) && ValidRef(r) && Before(r, rs[0])
    ensures Canonical([r] + rs) && Elements([r] + rs) == {r} + Elements(rs)
  {
    forall k | 0 <= k < |rs| ensures Before(r, rs[k]) {
      if k > 0 { BeforeTransitive(r, rs[0], rs[k]); }
    }
    Leads(r, rs);
  }

  /** The canonical list of a set of stored and a set of new references. */
  ghost predicate IsMerge(stored: seq<Ref>, refs: seq<Ref>, out: seq<Ref>) {
    Canonical(out) && ValidRefs(out) && Elements(out) == Elements(stored) + Elements(refs)
  }

  /** `merge_artifact_refs`: the dictionary by key, then its values in key order. */
  method MergeArtifactRefs(stored: seq<Ref>, refs: seq<Ref>) returns (merged: seq<Ref>)
    requires ValidRefs(stored) && ValidRefs(refs)
    ensures IsMerge(stored, refs, merged)
  {
    var all := stored + refs;
    var byKey: map<Key, Ref> := map[];
    var i := 0;
    while i < |all|
      invariant 0 <= i <= |all|
      invariant forall k | k in byKey :: ValidRef(byKey[k]) && KeyOf(byKey[k]) == k && byKey[k] in all
      invariant forall j | 0 <= j < i :: KeyOf(all[j]) in byKey
    {
      assert all[i] in all;
      byKey := byKey[KeyOf(all[i]) := all[i]];
      i := i + 1;
    }
    merged := [];
    var todo := byKey.Keys;
    while todo != {}
      invariant todo <= byKey.Keys && Canonical(merged) && ValidRefs(merged)
      invariant Elements(merged) == set k | k in byKey.Keys - todo :: byKey[k]
      decreases |todo|
    {
      var k :| k in todo;
      InsertFacts(merged, byKey[k]);
      merged, todo := Insert(merged, byKey[k]), todo - {k};
    }
    assert byKey.Keys - todo == byKey.Keys;
    forall r | r in all ensures r in Elements(merged) {
      var j :| 0 <= j < |all| && all[j] == r;
      BeforeTotal(byKey[KeyOf(r)], r);
    }
    assert Elements(all) == Elements(stored) + Elements(refs);
  }

  /**
   Merging is an idempotent union that does not depend on order: two producers, in either order, together, or again,
   leave the same list.
   */
  lemma MergeConverges(s: seq<Ref>, a: seq<Ref>, b: seq<Ref>, sa: seq<Ref>, sb: seq<Ref>, ab: seq<Ref>, ba: seq<Ref>, both: seq<Ref>, again: seq<Ref>)
    requires IsMerge(s, a, sa) && IsMerge(s, b, sb) && IsMerge(sa, b, ab) && IsMerge(sb, a, ba) && IsMerge(s, a + b, both)
    requires IsMerge(ab, a, again)
    ensures ab == ba == both == again
  {
    assert Elements(a + b) == Elements(a) + Elements(b);
    CanonicalUnique(ab, ba);
    CanonicalUnique(ab, both);
    CanonicalUnique(ab, again);
  }

  // ---------------------------------------------------------------- typed references

  /** What a context stores: typed references, and the older scalar fields by the kind they stand for. */
  datatype Artifacts = Artifacts(refs: seq<Ref>, scalars: map<Kind, string>)

  predicate Bound(refs: set<Ref>, kind: Kind, id: string) { exists r | r in refs :: r.kind == kind && r.id == id }

  /** An unversioned stand-in for every scalar whose kind and identifier are not bound already. */
  function Adapters(refs: set<Ref>, scalars: map<Kind, string>): set<Ref> {
    set k | k in scalars.Keys && scalars[k] != "" && !Bound(refs, k, scalars[k]) :: Ref(k, scalars[k], None)
  }

  function TypedRefs(a: Artifacts, convertLegacy: bool): set<Ref> {
    Elements(a.refs) + if convertLegacy then Adapters(Elements(a.refs), a.scalars) else {}
  }

  /** A typed reference, or, when scalars are converted, an unversioned one for a scalar nothing typed stands for. */
  predicate Refers(a: Artifacts, convertLegacy: bool, r: Ref) {
    || r in a.refs
    || (convertLegacy && r.version.None? && r.id != "" && r.kind in a.scalars && a.scalars[r.kind] == r.id
        && forall x | x in a.refs :: x.kind == r.kind ==> x.id != r.id)
  }

  lemma TypedRefsIff(a: Artifacts, convertLegacy: bool, r: Ref)
    ensures r in TypedRefs(a, convertLegacy) <==> Refers(a, convertLegacy, r)
  {
  }

  /** Adapting again after binding the adapters changes nothing: stand-ins are never added twice. */
  lemma AdaptersOnce(a: Artifacts, merged: seq<Ref>)
    requires Elements(merged) == TypedRefs(a, true)
    ensures TypedRefs(a.(refs := merged), true) == Elements(merged)
  {
    forall k | k in a.scalars.Keys && a.scalars[k] != "" ensures Bound(Elements(merged), k, a.scalars[k]) {
      if Bound(Elements(a.refs), k, a.scalars[k]) {
        var r :| r in Elements(a.refs) && r.kind == k && r.id == a.scalars[k];
        assert r in Elements(merged);
      } else {
        assert Ref(k, a.scalars[k], None) in Adapters(Elements(a.refs), a.scalars);
        assert Ref(k, a.scalars[k], None) in Elements(merged);
      }
    }
  }
}
