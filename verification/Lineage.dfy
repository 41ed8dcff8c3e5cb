/**
 Reconciliation of one analysis context's lineage (lineage_reconciliation.py:272-490) over fixed domain rows: a pass
 collects references and edges from the stored references and the rows, keeps what checks out, and in apply mode
 stores it.
 */
module Lineage {
  import opened Json
  import opened ContextLineage

  datatype Transform = Ingestion | ModelCheckpointing | ReportPublication | InsightGeneration

  datatype Edge = Edge(artifact: Ref, parent: Ref, transform: Transform)

  datatype Status = Ok | Dangling | Unauthorized

  datatype Checkpoint = Checkpoint(id: string, payloadHash: string, run: Option<string>, parent: Option<string>)

  datatype Report = Report(id: string, sha: string, run: string, checkpoint: string, manifest: Option<string>)

  datatype Insight = Insight(id: string, version: string, subjects: Artifacts)

  /** The rows a pass reads and never changes. A manifest maps each listed file to its document, when it names one. */
  datatype Domain = Domain(
    authorized: bool,
    scalars: map<Kind, string>,
    manifests: map<string, seq<Option<string>>>,
    checkpoints: seq<Checkpoint>,
    hashes: map<string, string>,
    reports: seq<Report>,
    insights: seq<Insight>,
    status: Ref -> Status)

  /**
   What a context has stored: its typed references, the edges whose columns a lookup would find, and the edges whose
   idempotency key some row holds. A damaged row can hold the key of an edge that no lookup finds.
   */
  datatype State = State(refs: set<Ref>, found: set<Edge>, keyed: set<Edge>)

  /** Every row that holds an edge's key carries that edge's columns. */
  predicate Intact(s: State) { s.keyed <= s.found }

  // ---------------------------------------------------------------- what a pass collects

  function HashOf(d: Domain, id: string): Option<string> { if id in d.hashes then Some(d.hashes[id]) else None }

  predicate Given(x: Option<string>) { x.Some? && x.value != "" }

  function ManifestRef(id: string): Ref { Ref(SourceManifest, id, None) }

  function CheckpointRef(c: Checkpoint): Ref { Ref(ModelCheckpoint, c.id, Some(c.payloadHash)) }

  function ReportRef(r: Report): Ref { Ref(ReportVersion, r.id, Some(r.sha)) }

  function InsightRef(i: Insight): Ref { Ref(Kind.Insight, i.id, Some(i.version)) }

  function RunRef(id: string): Ref { Ref(IssuerRun, id, None) }

  function ManifestIds(d: Domain, refs: set<Ref>): set<string> {
    (set r | r in refs && r.kind.SourceManifest? :: r.id)
    + if SourceManifest in d.scalars && d.scalars[SourceManifest] != "" then {d.scalars[SourceManifest]} else {}
  }

  function FileEdge(id: string, document: string): Edge { Edge(ManifestRef(id), Ref(Document, document, None), Ingestion) }

  function Documents(files: seq<Option<string>>): set<string> {
    set f | f in files && Given(f) :: f.value
  }

  function FileEdges(d: Domain, ids: set<string>): set<Edge> {
    set id, x | id in ids && id in d.manifests && x in Documents(d.manifests[id]) :: FileEdge(id, x)
  }

  function CheckpointEdges(d: Domain, cs: seq<Checkpoint>): set<Edge> {
    (set c | c in cs && Given(c.run) :: Edge(CheckpointRef(c), RunRef(c.run.value), ModelCheckpointing))
    + (set c | c in cs && Given(c.parent) ::
         Edge(CheckpointRef(c), Ref(ModelCheckpoint, c.parent.value, HashOf(d, c.parent.value)), ModelCheckpointing))
  }

  function ReportEdges(d: Domain, rs: seq<Report>): set<Edge> {
    (set r | r in rs :: Edge(ReportRef(r), RunRef(r.run), ReportPublication))
    + (set r | r in rs :: Edge(ReportRef(r), Ref(ModelCheckpoint, r.checkpoint, HashOf(d, r.checkpoint)), ReportPublication))
    + (set r | r in rs && Given(r.manifest) :: Edge(ReportRef(r), ManifestRef(r.manifest.value), ReportPublication))
  }

  function SubjectEdges(i: Insight, subjects: set<Ref>): set<Edge> { set s | s in subjects :: Edge(InsightRef(i), s, InsightGeneration) }

  function InsightEdges(xs: seq<Insight>): set<Edge> {
    set i, e | i in xs && e in SubjectEdges(i, TypedRefs(i.subjects, true)) :: e
  }

  function RowEdges(d: Domain): set<Edge> { CheckpointEdges(d, d.checkpoints) + ReportEdges(d, d.reports) + InsightEdges(d.insights) }

  function CheckpointRefs(cs: seq<Checkpoint>): set<Ref> { set c | c in cs :: CheckpointRef(c) }

  function Ends(es: set<Edge>): set<Ref> { (set e | e in es :: e.artifact) + (set e | e in es :: e.parent) }

  function EdgesFrom(d: Domain, refs: set<Ref>): set<Edge> { FileEdges(d, ManifestIds(d, refs)) + RowEdges(d) }

  function Produced(d: Domain, refs: set<Ref>): set<Ref> { refs + CheckpointRefs(d.checkpoints) + Ends(EdgesFrom(d, refs)) }

  function Collected(d: Domain, refs: set<Ref>): set<Ref> { Produced(d, refs) + Adapters(Produced(d, refs), d.scalars) }

  // ---------------------------------------------------------------- what a pass keeps and stores

  function Valid(d: Domain, refs: set<Ref>): set<Ref> { set r | r in refs && d.authorized && d.status(r).Ok? }

  function Within(es: set<Edge>, refs: set<Ref>): set<Edge> { set e | e in es && e.artifact in refs && e.parent in refs }

  function KeptRefs(d: Domain, s: State): set<Ref> { Valid(d, Collected(d, s.refs)) }

  function KeptEdges(d: Domain, s: State): set<Edge> { Within(EdgesFrom(d, s.refs), KeptRefs(d, s)) }

  function ProposedRefs(d: Domain, s: State): set<Ref> { KeptRefs(d, s) - s.refs }

  function ProposedEdges(d: Domain, s: State): set<Edge> { KeptEdges(d, s) - s.found }

  /** An insert does nothing when its key is taken. */
  function Apply(d: Domain, s: State): State {
    var inserted := ProposedEdges(d, s) - s.keyed;
    State(s.refs + KeptRefs(d, s), s.found + inserted, s.keyed + inserted)
  }

  // ---------------------------------------------------------------- what a pass proposes

  /** A reference to a checkpoint by its identifier: with its hash, when the checkpoint still exists. */
  predicate NamesCheckpoint(d: Domain, r: Ref, id: string) {
    r.kind == ModelCheckpoint && r.id == id && (r.version.Some? <==> id in d.hashes) && (id in d.hashes ==> r.version.value == d.hashes[id])
  }

  /** A context knows a manifest: by a typed reference, or by its legacy scalar. */
  predicate KnowsManifest(d: Domain, refs: set<Ref>, id: string) {
    || (exists r | r in refs :: r.kind == SourceManifest && r.id == id)
    || (id != "" && SourceManifest in d.scalars && d.scalars[SourceManifest] == id)
  }

  predicate Named(x: Option<string>, id: string) { id != "" && x == Some(id) }

  /**
   The relations that rows prove: a known manifest to a document it lists, a checkpoint to its run and its parent, a
   report to its run, its checkpoint and its manifest, and an insight to its subjects.
   */
  predicate Proves(d: Domain, refs: set<Ref>, e: Edge) {
    match e.transform
    case Ingestion =>
      && e.artifact == Ref(SourceManifest, e.artifact.id, None) && e.parent == Ref(Document, e.parent.id, None)
      && KnowsManifest(d, refs, e.artifact.id) && e.artifact.id in d.manifests
      && e.parent.id != "" && Some(e.parent.id) in d.manifests[e.artifact.id]
    case ModelCheckpointing =>
      exists c | c in d.checkpoints ::
        && e.artifact == Ref(ModelCheckpoint, c.id, Some(c.payloadHash))
        && ((Named(c.run, e.parent.id) && e.parent == Ref(IssuerRun, e.parent.id, None))
            || (Named(c.parent, e.parent.id) && NamesCheckpoint(d, e.parent, e.parent.id)))
    case ReportPublication =>
      exists r | r in d.reports ::
        && e.artifact == Ref(ReportVersion, r.id, Some(r.sha))
        && (e.parent == Ref(IssuerRun, r.run, None) || NamesCheckpoint(d, e.parent, r.checkpoint)
            || (Named(r.manifest, e.parent.id) && e.parent == Ref(SourceManifest, e.parent.id, None)))
    case InsightGeneration =>
      exists i | i in d.insights :: e.artifact == Ref(Kind.Insight, i.id, Some(i.version)) && Refers(i.subjects, true, e.parent)
  }

  lemma ManifestKnown(d: Domain, refs: set<Ref>, id: string)
    ensures id in ManifestIds(d, refs) <==> KnowsManifest(d, refs, id)
  {
  }

  lemma FileEdgeIff(d: Domain, refs: set<Ref>, e: Edge)
    ensures e in FileEdges(d, ManifestIds(d, refs)) <==> e.transform == Ingestion && Proves(d, refs, e)
  {
    hide ManifestIds, KnowsManifest;
    ManifestKnown(d, refs, e.artifact.id);
    if e.transform == Ingestion && Proves(d, refs, e) {
      assert e == FileEdge(e.artifact.id, e.parent.id);
      var files := d.manifests[e.artifact.id];
      var k :| 0 <= k < |files| && files[k] == Some(e.parent.id);
      assert Given(files[k]) && e.parent.id in Documents(files);
    }
  }

  lemma CheckpointEdgeIff(d: Domain, refs: set<Ref>, e: Edge)
    ensures e in CheckpointEdges(d, d.checkpoints) <==> e.transform == ModelCheckpointing && Proves(d, refs, e)
  {
    hide KnowsManifest;
  }

  lemma ReportEdgeIff(d: Domain, refs: set<Ref>, e: Edge)
    ensures e in ReportEdges(d, d.reports) <==> e.transform == ReportPublication && Proves(d, refs, e)
  {
    hide KnowsManifest;
  }

  lemma InsightEdgeIff(d: Domain, refs: set<Ref>, e: Edge)
    ensures e in InsightEdges(d.insights) <==> e.transform == InsightGeneration && Proves(d, refs, e)
  {
    hide KnowsManifest, TypedRefs, Refers;
    forall i | i in d.insights ensures e.parent in TypedRefs(i.subjects, true) <==> Refers(i.subjects, true, e.parent) {
      TypedRefsIff(i.subjects, true, e.parent);
    }
    if e.transform == InsightGeneration && Proves(d, refs, e) {
      var i :| i in d.insights && e.artifact == InsightRef(i) && Refers(i.subjects, true, e.parent);
      assert e in SubjectEdges(i, TypedRefs(i.subjects, true));
    }
  }

  /** The edges a pass collects are exactly the relations the rows prove. */
  lemma EdgesFromIff(d: Domain, refs: set<Ref>, e: Edge)
    ensures e in EdgesFrom(d, refs) <==> Proves(d, refs, e)
  {
    FileEdgeIff(d, refs, e);
    CheckpointEdgeIff(d, refs, e);
    ReportEdgeIff(d, refs, e);
    InsightEdgeIff(d, refs, e);
    hide Proves, FileEdges, CheckpointEdges, ReportEdges, InsightEdges, ManifestIds;
  }

  /** A reference a context has to do with: stored, a checkpoint of its own, or one end of a relation. */
  ghost predicate Concerns(d: Domain, refs: set<Ref>, r: Ref) {
    || r in refs
    || (exists c | c in d.checkpoints :: r == Ref(ModelCheckpoint, c.id, Some(c.payloadHash)))
    || (exists e :: Proves(d, refs, e) && r in {e.artifact, e.parent})
  }

  lemma ProducedIff(d: Domain, refs: set<Ref>, r: Ref)
    ensures r in Produced(d, refs) <==> Concerns(d, refs, r)
  {
    hide Proves, EdgesFrom;
    forall e ensures e in EdgesFrom(d, refs) <==> Proves(d, refs, e) {
      EdgesFromIff(d, refs, e);
    }
  }

  /** A legacy scalar that nothing the context has to do with stands for. */
  ghost predicate Orphan(d: Domain, refs: set<Ref>, r: Ref) {
    && r.version.None? && r.id != "" && r.kind in d.scalars && d.scalars[r.kind] == r.id
    && forall x | Concerns(d, refs, x) :: x.kind == r.kind ==> x.id != r.id
  }

  lemma CollectedIff(d: Domain, refs: set<Ref>, r: Ref)
    ensures r in Collected(d, refs) <==> Concerns(d, refs, r) || Orphan(d, refs, r)
  {
    hide Produced, Concerns;
    forall x ensures x in Produced(d, refs) <==> Concerns(d, refs, x) {
      ProducedIff(d, refs, x);
    }
  }

  /**
   What a pass proposes: of an authorized context, the references it has to do with that exist and may be seen, and
   the relations its rows prove between such references, each unless it is recorded already.
   */
  lemma PassProposes(d: Domain, s: State, r: Ref, e: Edge)
    ensures r in ProposedRefs(d, s) <==>
            d.authorized && d.status(r) == Ok && r !in s.refs && (Concerns(d, s.refs, r) || Orphan(d, s.refs, r))
    ensures e in ProposedEdges(d, s) <==>
            d.authorized && d.status(e.artifact) == Ok && d.status(e.parent) == Ok && e !in s.found && Proves(d, s.refs, e)
  {
    CollectedIff(d, s.refs, r);
    CollectedIff(d, s.refs, e.artifact);
    CollectedIff(d, s.refs, e.parent);
    EdgesFromIff(d, s.refs, e);
    hide Proves, Orphan, Collected, EdgesFrom;
  }

  // ---------------------------------------------------------------- one pass is safe

  /**
   A pass only adds. What it adds checks out; every edge it adds joins two stored references; and with intact rows
   nothing it proposed is proposed again.
   */
  lemma PassOnlyAdds(d: Domain, s: State)
    ensures
      var t := Apply(d, s);
      && s.refs <= t.refs && s.found <= t.found && s.keyed <= t.keyed
      && (forall r | r in t.refs - s.refs :: d.authorized && d.status(r).Ok?)
      && (forall e | e in t.found - s.found :: e.artifact in t.refs && e.parent in t.refs)
      && t.refs - s.refs == ProposedRefs(d, s)
      && (Intact(s) ==> Intact(t) && t.found - s.found == ProposedEdges(d, s))
  {
    hide Collected, EdgesFrom;
  }

  lemma ProducedGrows(d: Domain, a: set<Ref>, b: set<Ref>)
    requires a <= b
    ensures ManifestIds(d, a) <= ManifestIds(d, b) && EdgesFrom(d, a) <= EdgesFrom(d, b) && Produced(d, a) <= Produced(d, b)
  {
    hide RowEdges, CheckpointRefs;
    assert FileEdges(d, ManifestIds(d, a)) <= FileEdges(d, ManifestIds(d, b));
    EndsGrow(EdgesFrom(d, a), EdgesFrom(d, b));
  }

  lemma EndsGrow(a: set<Edge>, b: set<Edge>)
    requires a <= b
    ensures Ends(a) <= Ends(b)
  {
  }

  lemma AdaptersShrink(a: set<Ref>, b: set<Ref>, scalars: map<Kind, string>)
    requires a <= b
    ensures Adapters(b, scalars) <= Adapters(a, scalars)
  {
    forall r | r in Adapters(b, scalars) ensures r in Adapters(a, scalars) {
      assert !Bound(b, r.kind, r.id);
    }
  }

  // ---------------------------------------------------------------- convergence

  /** The manifests named by what the domain rows alone contribute. */
  function ReachedIds(d: Domain): set<string> {
    set r | r in Valid(d, CheckpointRefs(d.checkpoints) + Ends(RowEdges(d))) && r.kind.SourceManifest? :: r.id
  }

  lemma FileEnds(d: Domain, ids: set<string>, r: Ref)
    requires r in Ends(FileEdges(d, ids)) && r.kind.SourceManifest?
    ensures r.id in ids
  {
    var e :| e in FileEdges(d, ids) && (e.artifact == r || e.parent == r);
  }

  lemma EndsUnion(a: set<Edge>, b: set<Edge>)
    ensures Ends(a + b) == Ends(a) + Ends(b)
  {
  }

  /** A pass makes known the manifests it knew and those the domain rows reach, and no others. */
  lemma IdsAfter(d: Domain, s: State)
    ensures ManifestIds(d, Apply(d, s).refs) == ManifestIds(d, s.refs) + ReachedIds(d)
  {
    hide RowEdges, FileEdges, Ends, CheckpointRefs, ProposedEdges;
    var (ids, after) := (ManifestIds(d, s.refs), ManifestIds(d, Apply(d, s).refs));
    EndsUnion(FileEdges(d, ids), RowEdges(d));
    forall r | r in Apply(d, s).refs && r.kind.SourceManifest? ensures r.id in ids + ReachedIds(d) {
      if r !in s.refs && r in Ends(FileEdges(d, ids)) { FileEnds(d, ids, r); }
    }
    assert forall r | r in Valid(d, CheckpointRefs(d.checkpoints) + Ends(RowEdges(d))) :: r in Apply(d, s).refs;
  }

  /** When no further manifest comes into reach, a second pass collects what the first one left or dropped. */
  lemma NothingNewCollected(d: Domain, s: State)
    requires ReachedIds(d) <= ManifestIds(d, s.refs)
    ensures var t := Apply(d, s); EdgesFrom(d, t.refs) == EdgesFrom(d, s.refs) && KeptRefs(d, t) == KeptRefs(d, s) + Valid(d, s.refs)
  {
    hide RowEdges, CheckpointRefs, FileEdges, Ends, ProposedEdges, ReachedIds;
    var t := Apply(d, s);
    IdsAfter(d, s);
    assert ManifestIds(d, t.refs) == ManifestIds(d, s.refs);
    ProducedGrows(d, s.refs, t.refs);
    AdaptersShrink(Produced(d, s.refs), Produced(d, t.refs), d.scalars);
    assert Produced(d, t.refs) == Produced(d, s.refs) + KeptRefs(d, s);
  }

  /** The second pass from such a state proposes nothing but edges whose key a damaged row holds. */
  lemma NothingNewProposed(d: Domain, s: State)
    requires ReachedIds(d) <= ManifestIds(d, s.refs)
    ensures
      var t := Apply(d, s);
      ProposedRefs(d, t) == {} && ProposedEdges(d, t) <= t.keyed - t.found && Apply(d, t) == t
  {
    hide Collected, EdgesFrom, ReachedIds;
    var t := Apply(d, s);
    NothingNewCollected(d, s);
    assert Valid(d, s.refs) <= KeptRefs(d, s) by { SelfCollected(d, s.refs); }
  }

  lemma SelfCollected(d: Domain, refs: set<Ref>)
    ensures refs <= Collected(d, refs)
  {
  }

  /** The rows whose key is taken by a row that no lookup finds under that edge's columns. */
  function Damaged(s: State): set<Edge> { s.keyed - s.found }

  /** A pass neither repairs nor damages a row. */
  lemma DamageStays(d: Domain, s: State)
    ensures Damaged(Apply(d, s)) == Damaged(s)
  {
    hide ProposedEdges;
  }

  /**
   Reconciliation converges: two apply passes reach a state that no later pass changes. What the third pass still
   proposes are exactly the kept edges with a damaged row, so it is idle if and only if no kept edge has one.
   */
  lemma ThirdPassIsIdle(d: Domain, s: State)
    ensures
      var t := Apply(d, Apply(d, s));
      && Apply(d, t) == t && ProposedRefs(d, t) == {} && ProposedEdges(d, t) == KeptEdges(d, t) * Damaged(s)
      && (ProposedEdges(d, t) == {} <==> KeptEdges(d, t) !! Damaged(s))
      && (Intact(s) ==> ProposedEdges(d, t) == {})
  {
    hide Collected, EdgesFrom, ReachedIds, ProposedEdges, ProposedRefs, KeptEdges;
    IdsAfter(d, s);
    NothingNewProposed(d, Apply(d, s));
    DamageStays(d, s);
    DamageStays(d, Apply(d, s));
    StillProposed(d, Apply(d, Apply(d, s)));
  }

  lemma StillProposed(d: Domain, t: State)
    requires ProposedEdges(d, t) <= Damaged(t)
    ensures ProposedEdges(d, t) == KeptEdges(d, t) * Damaged(t)
    ensures ProposedEdges(d, t) == {} <==> KeptEdges(d, t) !! Damaged(t)
  {
    hide KeptEdges;
    if ProposedEdges(d, t) == {} {
      assert forall e | e in KeptEdges(d, t) && e in Damaged(t) :: e in ProposedEdges(d, t);
    }
  }

  function Passes(d: Domain, s: State, n: nat): State { if n == 0 then s else Apply(d, Passes(d, s, n - 1)) }

  /** What one pass keeps the next one keeps. */
  lemma KeptGrows(d: Domain, s: State)
    ensures KeptEdges(d, s) <= KeptEdges(d, Apply(d, s))
  {
    hide Collected, EdgesFrom;
    var t := Apply(d, s);
    ProducedGrows(d, s.refs, t.refs);
    SelfCollected(d, t.refs);
  }

  /** A kept edge with a damaged row is proposed, and counted as applied, by every pass for ever. */
  lemma {:induction false} DamagedForever(d: Domain, s: State, e: Edge, n: nat)
    requires e in KeptEdges(d, s) && e in Damaged(s)
    ensures e in KeptEdges(d, Passes(d, s, n)) && e in Damaged(Passes(d, s, n)) && e in ProposedEdges(d, Passes(d, s, n))
    ensures Passes(d, s, n + 1) == Apply(d, Passes(d, s, n))
  {
    hide KeptEdges, Apply;
    if n > 0 {
      DamagedForever(d, s, e, n - 1);
      KeptGrows(d, Passes(d, s, n - 1));
      DamageStays(d, Passes(d, s, n - 1));
    }
  }

  /** One damaged row: the edge of a report to its run is proposed by every pass. */
  lemma {:induction false} DamagedReport(d: Domain, n: nat)
    requires d.authorized && d.scalars == map[] && d.checkpoints == [] && d.insights == [] && (forall r :: d.status(r) == Ok)
    requires d.manifests == map[] && d.reports == [Report("r", "h", "u", "c", None)]
    ensures
      var e := Edge(ReportRef(d.reports[0]), RunRef("u"), ReportPublication);
      e in ProposedEdges(d, Passes(d, State({}, {}, {e}), n))
  {
    var e := Edge(ReportRef(d.reports[0]), RunRef("u"), ReportPublication);
    var s := State({}, {}, {e});
    assert e in ReportEdges(d, d.reports);
    assert e in EdgesFrom(d, {});
    hide EdgesFrom;
    assert e.artifact in Produced(d, {}) && e.parent in Produced(d, {});
    hide Produced;
    assert e in KeptEdges(d, s);
    DamagedForever(d, s, e, n);
  }

  // ---------------------------------------------------------------- the second pass

  predicate Missing(d: Domain, t: State, id: string, document: string) {
    var (m, x) := (ManifestRef(id), Ref(Document, document, None));
    && d.authorized
    && ((d.status(m).Ok? && m !in t.refs) || (d.status(x).Ok? && x !in t.refs)
        || (d.status(m).Ok? && d.status(x).Ok? && FileEdge(id, document) !in t.found))
  }

  /** After the first pass, everything listed by the manifests that only the domain rows reach is already recorded. */
  predicate Recorded(d: Domain, s: State, t: State) {
    forall id, x | id in ReachedIds(d) - ManifestIds(d, s.refs) && id in d.manifests && x in Documents(d.manifests[id]) ::
      !Missing(d, t, id, x)
  }

  lemma FileEdgesUnion(d: Domain, a: set<string>, b: set<string>)
    ensures FileEdges(d, a + b) == FileEdges(d, a) + FileEdges(d, b)
  {
  }

  /** What the second pass adds to what was collected comes from newly reached manifests. */
  lemma SecondEdges(d: Domain, s: State, added: set<string>)
    requires added == ReachedIds(d) - ManifestIds(d, s.refs)
    ensures EdgesFrom(d, Apply(d, s).refs) == EdgesFrom(d, s.refs) + FileEdges(d, added)
  {
    hide RowEdges, FileEdges, ReachedIds, Apply;
    IdsAfter(d, s);
    var ids := ManifestIds(d, s.refs);
    assert ids + ReachedIds(d) == ids + added;
    FileEdgesUnion(d, ids, added);
  }

  lemma SecondRefs(d: Domain, s: State, added: set<string>)
    requires added == ReachedIds(d) - ManifestIds(d, s.refs)
    ensures ProposedRefs(d, Apply(d, s)) == Valid(d, Ends(FileEdges(d, added))) - Apply(d, s).refs
  {
    hide RowEdges, CheckpointRefs, FileEdges, Ends, ProposedEdges, ReachedIds, ManifestIds, EdgesFrom;
    var t := Apply(d, s);
    SecondEdges(d, s, added);
    EndsUnion(EdgesFrom(d, s.refs), FileEdges(d, added));
    assert Produced(d, s.refs) <= Produced(d, t.refs);
    AdaptersShrink(Produced(d, s.refs), Produced(d, t.refs), d.scalars);
  }

  lemma SecondKept(d: Domain, s: State, added: set<string>)
    requires Intact(s) && added == ReachedIds(d) - ManifestIds(d, s.refs)
    ensures
      var t := Apply(d, s);
      ProposedEdges(d, t) == Within(FileEdges(d, added), KeptRefs(d, t)) - t.found
  {
    hide RowEdges, CheckpointRefs, FileEdges, ReachedIds, ManifestIds, EdgesFrom;
    var t := Apply(d, s);
    SecondEdges(d, s, added);
    forall e | e in EdgesFrom(d, s.refs) && e in KeptEdges(d, t) ensures e in t.found {
      assert e.artifact in Ends(EdgesFrom(d, s.refs)) && e.parent in Ends(EdgesFrom(d, s.refs));
    }
  }

  lemma FileEdgeShape(d: Domain, ids: set<string>, e: Edge)
    requires e in FileEdges(d, ids)
    ensures e == FileEdge(e.artifact.id, e.parent.id) && e.artifact.id in ids && e.artifact.id in d.manifests
    ensures e.parent.id in Documents(d.manifests[e.artifact.id])
  {
  }

  lemma FreshKept(d: Domain, s: State, added: set<string>, e: Edge)
    requires added == ReachedIds(d) - ManifestIds(d, s.refs) && e in FileEdges(d, added)
    ensures e.artifact in Ends(FileEdges(d, added)) && e.parent in Ends(FileEdges(d, added))
    ensures Valid(d, {e.artifact, e.parent}) <= KeptRefs(d, Apply(d, s))
  {
    hide RowEdges, CheckpointRefs, ReachedIds, ManifestIds, EdgesFrom, FileEdges, Apply;
    SecondEdges(d, s, added);
    assert e in EdgesFrom(d, Apply(d, s).refs);
  }

  lemma RecordedIsIdle(d: Domain, s: State, added: set<string>)
    requires Intact(s) && added == ReachedIds(d) - ManifestIds(d, s.refs) && Recorded(d, s, Apply(d, s))
    ensures ProposedRefs(d, Apply(d, s)) == {} && ProposedEdges(d, Apply(d, s)) == {}
  {
    hide RowEdges, ReachedIds, ManifestIds, EdgesFrom, Collected, ProposedRefs, ProposedEdges, Apply, FileEdges, Documents, KeptRefs;
    var t := Apply(d, s);
    SecondRefs(d, s, added);
    SecondKept(d, s, added);
    forall e | e in FileEdges(d, added) ensures !Missing(d, t, e.artifact.id, e.parent.id) && e == FileEdge(e.artifact.id, e.parent.id) {
      FileEdgeShape(d, added, e);
    }
    assert forall r | r in KeptRefs(d, t) :: d.authorized && d.status(r).Ok? by { KeptIsOk(d, t); }
  }

  lemma KeptIsOk(d: Domain, t: State)
    ensures forall r | r in KeptRefs(d, t) :: d.authorized && d.status(r).Ok?
  {
  }

  lemma IdleIsRecorded(d: Domain, s: State, added: set<string>, id: string, x: string)
    requires Intact(s) && added == ReachedIds(d) - ManifestIds(d, s.refs)
    requires ProposedRefs(d, Apply(d, s)) == {} && ProposedEdges(d, Apply(d, s)) == {}
    requires id in added && id in d.manifests && x in Documents(d.manifests[id])
    ensures !Missing(d, Apply(d, s), id, x)
  {
    hide RowEdges, ReachedIds, ManifestIds, EdgesFrom, Collected, ProposedRefs, ProposedEdges, Apply, Ends, KeptRefs;
    var e := FileEdge(id, x);
    assert e in FileEdges(d, added);
    hide FileEdges;
    FreshKept(d, s, added, e);
    SecondRefs(d, s, added);
    SecondKept(d, s, added);
    var t := Apply(d, s);
    assert d.authorized && d.status(e.artifact).Ok? ==> e.artifact in Valid(d, Ends(FileEdges(d, added)));
    assert d.authorized && d.status(e.parent).Ok? ==> e.parent in Valid(d, Ends(FileEdges(d, added)));
    assert d.authorized && d.status(e.artifact).Ok? ==> e.artifact in Valid(d, {e.artifact, e.parent});
    assert d.authorized && d.status(e.parent).Ok? ==> e.parent in Valid(d, {e.artifact, e.parent});
    if d.authorized && d.status(e.artifact).Ok? && d.status(e.parent).Ok? {
      assert e in Within(FileEdges(d, added), KeptRefs(d, t));
      assert e in t.found by { assert e !in ProposedEdges(d, t); }
    }
    assert forall r | r in Valid(d, Ends(FileEdges(d, added))) :: r in t.refs by {
      assert forall r | r in Valid(d, Ends(FileEdges(d, added))) && r !in t.refs :: r in ProposedRefs(d, t);
    }
  }

  /**
   The second pass has nothing to do exactly when the manifests that only the domain rows reach are already recorded
   file by file.
   */
  lemma SecondPassIdleIff(d: Domain, s: State)
    requires Intact(s)
    ensures
      var t := Apply(d, s);
      ProposedRefs(d, t) == {} && ProposedEdges(d, t) == {} <==> Recorded(d, s, t)
  {
    hide RowEdges, ReachedIds, ManifestIds, EdgesFrom, Collected, ProposedRefs, ProposedEdges, Apply, Missing, Documents;
    var t := Apply(d, s);
    var added := ReachedIds(d) - ManifestIds(d, s.refs);
    if Recorded(d, s, t) {
      RecordedIsIdle(d, s, added);
    } else if ProposedRefs(d, t) == {} && ProposedEdges(d, t) == {} {
      forall id, x | id in added && id in d.manifests && x in Documents(d.manifests[id]) ensures !Missing(d, t, id, x) {
        IdleIsRecorded(d, s, added, id, x);
      }
    }
  }

  lemma NoDocumentsYet(d: Domain)
    requires d.scalars == map[] && d.checkpoints == [] && d.insights == []
    ensures forall r | r in Collected(d, {}) :: !r.kind.Document?
  {
    assert ManifestIds(d, {}) == {};
    assert FileEdges(d, {}) == {};
    assert forall e | e in RowEdges(d) :: !e.artifact.kind.Document? && !e.parent.kind.Document?;
    hide RowEdges, FileEdges, ManifestIds;
  }

  /** A report names a manifest that the context does not: its documents are only found on the second pass. */
  lemma SecondPassCanWork(d: Domain)
    requires d.authorized && d.scalars == map[] && d.checkpoints == [] && d.insights == [] && (forall r :: d.status(r) == Ok)
    requires d.manifests == map["m" := [Some("f")]] && d.reports == [Report("r", "h", "u", "c", Some("m"))]
    ensures Ref(Document, "f", None) in ProposedRefs(d, Apply(d, State({}, {}, {})))
  {
    var s := State({}, {}, {});
    var r := d.reports[0];
    var e := Edge(ReportRef(r), ManifestRef("m"), ReportPublication);
    assert e in ReportEdges(d, d.reports);
    assert Some("f") in d.manifests["m"];
    assert ManifestRef("m") in Ends(RowEdges(d));
    hide ReportEdges, InsightEdges, CheckpointEdges, RowEdges, CheckpointRefs;
    assert "m" in ReachedIds(d) by { assert ManifestRef("m") in Valid(d, CheckpointRefs(d.checkpoints) + Ends(RowEdges(d))); }
    assert ManifestIds(d, {}) == {};
    var added := ReachedIds(d) - ManifestIds(d, {});
    assert FileEdge("m", "f") in FileEdges(d, added);
    assert Ref(Document, "f", None) in Ends(FileEdges(d, added));
    hide ReachedIds, ManifestIds, Ends, FileEdges;
    SecondRefs(d, s, added);
    NoDocumentsYet(d);
  }
}
