/**
 The loops of `reconcile_lineage` (lineage_reconciliation.py:272-490) over one stored context, proved to compute the
 pass that the lineage theorems are about.
 */
module LineageLedger {
  import opened Json
  import opened ContextLineage
  import opened Lineage

  datatype Counts = Counts(
    typedRefs: nat, existingRefs: nat, proposedRefs: nat, appliedRefs: nat, existingEdges: nat, proposedEdges: nat,
    appliedEdges: nat, dangling: nat, unauthorized: nat)

  lemma EndsAdd(es: set<Edge>, e: Edge)
    ensures Ends(es + {e}) == Ends(es) + {e.artifact, e.parent}
  {
  }

  /** The edges of one manifest's files. */
  function EntryEdges(id: string, files: seq<Option<string>>): set<Edge> { set x | x in Documents(files) :: FileEdge(id, x) }

  lemma FileEdgesAdd(d: Domain, ids: set<string>, id: string)
    ensures FileEdges(d, ids + {id}) == FileEdges(d, ids) + if id in d.manifests then EntryEdges(id, d.manifests[id]) else {}
  {
    hide Documents;
  }

  lemma EntryStep(id: string, files: seq<Option<string>>, k: nat)
    requires k < |files|
    ensures EntryEdges(id, files[..k + 1]) == EntryEdges(id, files[..k]) + if Given(files[k]) then {FileEdge(id, files[k].value)} else {}
  {
    assert files[..k + 1] == files[..k] + [files[k]];
    assert Documents(files[..k + 1]) == Documents(files[..k]) + if Given(files[k]) then {files[k].value} else {};
    hide Documents;
  }

  method CollectEntries(id: string, files: seq<Option<string>>, start: set<Ref>) returns (refs: set<Ref>, edges: set<Edge>)
    ensures edges == EntryEdges(id, files) && refs == start + Ends(edges)
  {
    refs, edges := start, {};
    var k := 0;
    while k < |files|
      invariant 0 <= k <= |files| && refs == start + Ends(edges) && edges == EntryEdges(id, files[..k])
    {
      EntryStep(id, files, k);
      if Given(files[k]) {
        var e := FileEdge(id, files[k].value);
        EndsAdd(edges, e);
        refs, edges := refs + {e.artifact, e.parent}, edges + {e};
      }
      k := k + 1;
    }
    assert files[..k] == files;
  }

  /** The manifests taken so far have been collected. */
  ghost predicate Filed(d: Domain, done: set<string>, start: set<Ref>, refs: set<Ref>, edges: set<Edge>) {
    edges == FileEdges(d, done) && refs == start + Ends(edges)
  }

  lemma FiledNothing(d: Domain, start: set<Ref>)
    ensures Filed(d, {}, start, start, {})
  {
    NoEnds();
  }

  lemma FiledOne(d: Domain, done: set<string>, start: set<Ref>, refs: set<Ref>, edges: set<Edge>, id: string, more: set<Edge>)
    requires Filed(d, done, start, refs, edges)
    requires more == if id in d.manifests then EntryEdges(id, d.manifests[id]) else {}
    ensures Filed(d, done + {id}, start, refs + Ends(more), edges + more)
  {
    hide EntryEdges, Ends, FileEdges;
    FileEdgesAdd(d, done, id);
    EndsUnion(edges, more);
    assert start + Ends(edges) + Ends(more) == start + (Ends(edges) + Ends(more));
  }

  method CollectFiles(d: Domain, ids: set<string>, start: set<Ref>) returns (refs: set<Ref>, edges: set<Edge>)
    ensures edges == FileEdges(d, ids) && refs == start + Ends(edges)
  {
    refs, edges := start, {};
    FiledNothing(d, start);
    NoEnds();
    var todo := ids;
    while todo != {}
      invariant todo <= ids && Filed(d, ids - todo, start, refs, edges)
      decreases |todo|
    {
      hide *;
      var id :| id in todo;
      var more: set<Edge> := {};
      ghost var before := refs;
      if id in d.manifests {
        refs, more := CollectEntries(id, d.manifests[id], refs);
      } else {
        NoEnds();
        assert refs == refs + Ends(more);
      }
      FiledOne(d, ids - todo, start, before, edges, id, more);
      assert ids - (todo - {id}) == ids - todo + {id};
      todo, edges := todo - {id}, edges + more;
    }
    assert ids - todo == ids;
  }

  lemma NoEnds()
    ensures Ends({}) == {}
  {
  }

  method CollectCheckpoints(d: Domain, start: set<Ref>) returns (refs: set<Ref>, edges: set<Edge>)
    ensures edges == CheckpointEdges(d, d.checkpoints) && refs == start + CheckpointRefs(d.checkpoints) + Ends(edges)
  {
    refs, edges := start, {};
    var k := 0;
    while k < |d.checkpoints|
      invariant 0 <= k <= |d.checkpoints|
      invariant edges == CheckpointEdges(d, d.checkpoints[..k])
      invariant refs == start + CheckpointRefs(d.checkpoints[..k]) + Ends(edges)
    {
      var c := d.checkpoints[k];
      ghost var before := edges;
      refs := refs + {CheckpointRef(c)};
      if Given(c.run) {
        var e := Edge(CheckpointRef(c), RunRef(c.run.value), ModelCheckpointing);
        EndsAdd(edges, e);
        refs, edges := refs + {e.artifact, e.parent}, edges + {e};
      }
      if Given(c.parent) {
        var e := Edge(CheckpointRef(c), Ref(ModelCheckpoint, c.parent.value, HashOf(d, c.parent.value)), ModelCheckpointing);
        EndsAdd(edges, e);
        refs, edges := refs + {e.artifact, e.parent}, edges + {e};
      }
      CheckpointStep(d, k);
      k := k + 1;
    }
    assert d.checkpoints[..k] == d.checkpoints;
  }

  lemma CheckpointStep(d: Domain, k: nat)
    requires k < |d.checkpoints|
    ensures
      var (cs, c) := (d.checkpoints[..k], d.checkpoints[k]);
      && CheckpointRefs(d.checkpoints[..k + 1]) == CheckpointRefs(cs) + {CheckpointRef(c)}
      && CheckpointEdges(d, d.checkpoints[..k + 1]) == CheckpointEdges(d, cs)
           + (if Given(c.run) then {Edge(CheckpointRef(c), RunRef(c.run.value), ModelCheckpointing)} else {})
           + (if Given(c.parent) then
                {Edge(CheckpointRef(c), Ref(ModelCheckpoint, c.parent.value, HashOf(d, c.parent.value)), ModelCheckpointing)} else {})
  {
    assert d.checkpoints[..k + 1] == d.checkpoints[..k] + [d.checkpoints[k]];
  }

  function EdgesOfReport(d: Domain, r: Report): set<Edge> {
    {Edge(ReportRef(r), RunRef(r.run), ReportPublication),
     Edge(ReportRef(r), Ref(ModelCheckpoint, r.checkpoint, HashOf(d, r.checkpoint)), ReportPublication)}
    + if Given(r.manifest) then {Edge(ReportRef(r), ManifestRef(r.manifest.value), ReportPublication)} else {}
  }

  lemma ReportStep(d: Domain, k: nat)
    requires k < |d.reports|
    ensures ReportEdges(d, d.reports[..k + 1]) == ReportEdges(d, d.reports[..k]) + EdgesOfReport(d, d.reports[k])
  {
    assert d.reports[..k + 1] == d.reports[..k] + [d.reports[k]];
  }

  method CollectReport(d: Domain, r: Report, start: set<Ref>) returns (refs: set<Ref>, edges: set<Edge>)
    ensures edges == EdgesOfReport(d, r) && refs == start + Ends(edges)
  {
    var e := Edge(ReportRef(r), RunRef(r.run), ReportPublication);
    refs, edges := start + {e.artifact, e.parent}, {e};
    e := Edge(ReportRef(r), Ref(ModelCheckpoint, r.checkpoint, HashOf(d, r.checkpoint)), ReportPublication);
    EndsAdd(edges, e);
    refs, edges := refs + {e.artifact, e.parent}, edges + {e};
    if Given(r.manifest) {
      e := Edge(ReportRef(r), ManifestRef(r.manifest.value), ReportPublication);
      EndsAdd(edges, e);
      refs, edges := refs + {e.artifact, e.parent}, edges + {e};
    }
  }

  method CollectReports(d: Domain, start: set<Ref>) returns (refs: set<Ref>, edges: set<Edge>)
    ensures edges == ReportEdges(d, d.reports) && refs == start + Ends(edges)
  {
    hide EdgesOfReport, Ends;
    NoEnds();
    refs, edges := start, {};
    var k := 0;
    while k < |d.reports|
      invariant 0 <= k <= |d.reports|
      invariant edges == ReportEdges(d, d.reports[..k]) && refs == start + Ends(edges)
    {
      var r := d.reports[k];
      ReportStep(d, k);
      var more: set<Edge>;
      refs, more := CollectReport(d, r, refs);
      EndsUnion(edges, more);
      edges := edges + more;
      k := k + 1;
    }
    assert d.reports[..k] == d.reports;
  }

  lemma InsightStep(xs: seq<Insight>, k: nat)
    requires k < |xs|
    ensures InsightEdges(xs[..k + 1]) == InsightEdges(xs[..k]) + SubjectEdges(xs[k], TypedRefs(xs[k].subjects, true))
  {
    hide SubjectEdges, TypedRefs;
    assert xs[..k + 1] == xs[..k] + [xs[k]];
  }

  lemma SubjectStep(i: Insight, done: set<Ref>, s: Ref)
    ensures SubjectEdges(i, done + {s}) == SubjectEdges(i, done) + {Edge(InsightRef(i), s, InsightGeneration)}
    ensures SubjectEdges(i, {}) == {}
  {
  }

  method CollectInsight(i: Insight, subjects: set<Ref>, start: set<Ref>) returns (refs: set<Ref>, edges: set<Edge>)
    ensures edges == SubjectEdges(i, subjects) && refs == start + Ends(edges)
  {
    refs, edges := start, {};
    var todo := subjects;
    while todo != {}
      invariant todo <= subjects && refs == start + Ends(edges) && edges == SubjectEdges(i, subjects - todo)
      decreases |todo|
    {
      var s :| s in todo;
      var e := Edge(InsightRef(i), s, InsightGeneration);
      EndsAdd(edges, e);
      SubjectStep(i, subjects - todo, s);
      assert subjects - (todo - {s}) == subjects - todo + {s};
      refs, edges, todo := refs + {e.artifact, e.parent}, edges + {e}, todo - {s};
    }
    assert subjects - todo == subjects;
  }

  method CollectInsights(d: Domain, start: set<Ref>) returns (refs: set<Ref>, edges: set<Edge>)
    ensures edges == InsightEdges(d.insights) && refs == start + Ends(edges)
  {
    hide SubjectEdges, TypedRefs, Ends;
    NoEnds();
    refs, edges := start, {};
    var k := 0;
    while k < |d.insights|
      invariant 0 <= k <= |d.insights|
      invariant edges == InsightEdges(d.insights[..k]) && refs == start + Ends(edges)
    {
      var i := d.insights[k];
      var more: set<Edge>;
      refs, more := CollectInsight(i, TypedRefs(i.subjects, true), refs);
      InsightStep(d.insights, k);
      EndsUnion(edges, more);
      edges := edges + more;
      k := k + 1;
    }
    assert d.insights[..k] == d.insights;
  }

  /** Everything a pass collects. */
  method Collect(d: Domain, stored: set<Ref>) returns (refs: set<Ref>, edges: set<Edge>)
    ensures edges == EdgesFrom(d, stored) && refs == Collected(d, stored)
  {
    hide FileEdges, CheckpointEdges, ReportEdges, InsightEdges, CheckpointRefs, Adapters, ManifestIds;
    var files: set<Edge>, checkpoints: set<Edge>, reports: set<Edge>, insights: set<Edge>;
    refs, files := CollectFiles(d, ManifestIds(d, stored), stored);
    refs, checkpoints := CollectCheckpoints(d, refs);
    refs, reports := CollectReports(d, refs);
    refs, insights := CollectInsights(d, refs);
    edges := files + checkpoints + reports + insights;
    EndsUnion(files, checkpoints);
    EndsUnion(files + checkpoints, reports);
    EndsUnion(files + checkpoints + reports, insights);
    assert edges == EdgesFrom(d, stored);
    assert refs == Produced(d, stored);
    refs := refs + Adapters(refs, d.scalars);
  }

  class ContextLedger {
    var refs: seq<Ref>
    var found: set<Edge>
    var keyed: set<Edge>

    function View(): State
      reads this
    {
      State(Elements(refs), found, keyed)
    }

    predicate Bindable()
      reads this
    {
      ContextLineage.ValidRefs(refs)
    }

    /**
     `write_lineage_edge`: an insert that does nothing when some row holds the edge's key. Afterwards the edge's key is
     held, and over intact rows the edge is found and the rows stay intact.
     */
    method WriteLineageEdge(e: Edge)
      modifies this`found, this`keyed
      ensures found == (if e in old(keyed) then old(found) else old(found) + {e})
      ensures keyed == (if e in old(keyed) then old(keyed) else old(keyed) + {e})
      ensures e in keyed && (old(Intact(View())) ==> Intact(View()) && e in found)
    {
      if e !in keyed {
        found, keyed := found + {e}, keyed + {e};
      }
    }

    /** The reference loop: every collected reference is classified once. */
    method Classify(d: Domain, all: set<Ref>) returns (kept: set<Ref>, dangling: nat, unauthorized: nat)
      ensures kept == Valid(d, all)
      ensures dangling == |set r | r in all && d.status(r).Dangling?|
      ensures |kept| + dangling + unauthorized == |all|
    {
      kept, dangling, unauthorized := {}, 0, 0;
      var todo := all;
      ghost var gone: set<Ref> := {};
      while todo != {}
        invariant todo <= all && kept == Valid(d, all - todo)
        invariant gone == (set r | r in all - todo && d.status(r).Dangling?) && dangling == |gone|
        invariant |kept| + dangling + unauthorized + |todo| == |all|
        decreases |todo|
      {
        var r :| r in todo;
        assert all - (todo - {r}) == all - todo + {r};
        todo := todo - {r};
        if d.status(r).Dangling? {
          gone, dangling := gone + {r}, dangling + 1;
        } else if d.status(r).Unauthorized? || !d.authorized {
          unauthorized := unauthorized + 1;
        } else {
          kept := kept + {r};
        }
      }
      assert all - todo == all;
    }

    /** The edge loop: in apply mode what is not found is written. */
    method StoreEdges(kept: set<Edge>, apply: bool) returns (existing: nat, proposed: nat, applied: nat)
      modifies this`found, this`keyed
      ensures StoredSoFar(apply, kept, old(found), old(keyed), found, keyed, existing, proposed)
      ensures applied == if apply then proposed else 0
    {
      hide *;
      existing, proposed, applied := 0, 0, 0;
      var todo := kept;
      StoredNothing(apply, found, keyed);
      assert kept - todo == {};
      while todo != {}
        invariant todo <= kept && applied == if apply then proposed else 0
        invariant StoredSoFar(apply, kept - todo, old(found), old(keyed), found, keyed, existing, proposed)
        decreases |todo|
      {
        var e :| e in todo;
        StoreOne(apply, kept - todo, e, old(found), old(keyed), found, keyed, existing, proposed);
        assert kept - (todo - {e}) == kept - todo + {e};
        if e in found {
          existing := existing + 1;
        } else {
          proposed := proposed + 1;
          if apply {
            WriteLineageEdge(e);
            applied := applied + 1;
          }
        }
        todo := todo - {e};
      }
      assert kept - todo == kept;
    }

    /**
     One context of `reconcile_lineage`. Apply mode stores exactly what a dry run from the same state proposes; a dry
     run stores nothing.
     */
    method Reconcile(d: Domain, apply: bool) returns (c: Counts)
      requires Bindable() && forall r | r in Collected(d, Elements(refs)) :: ValidRef(r)
      modifies this
      ensures Bindable() && View() == if apply then Apply(d, old(View())) else old(View())
      ensures apply && KeptRefs(d, old(View())) != {} ==> Canonical(refs)
      ensures c.typedRefs == |KeptRefs(d, old(View()))| && c.typedRefs + c.dangling + c.unauthorized == |Collected(d, Elements(old(refs)))|
      ensures c.dangling == |set r | r in Collected(d, Elements(old(refs))) && d.status(r).Dangling?|
      ensures c.existingRefs == |KeptRefs(d, old(View())) * old(View()).refs| && c.proposedRefs == |ProposedRefs(d, old(View()))|
      ensures c.existingEdges == |KeptEdges(d, old(View())) * old(found)| && c.proposedEdges == |ProposedEdges(d, old(View()))|
      ensures c.appliedRefs == (if apply then c.proposedRefs else 0) && c.appliedEdges == (if apply then c.proposedEdges else 0)
    {
      hide Collected, EdgesFrom, Canonical, Elements, Within, Valid;
      var stored := Elements(refs);
      var all, edges := Collect(d, stored);
      var kept, dangling, unauthorized := Classify(d, all);
      var keptEdges := Within(edges, kept);
      ghost var s := old(View());
      assert kept == KeptRefs(d, s) && keptEdges == KeptEdges(d, s);
      var existing, proposed, applied := StoreEdges(keptEdges, apply);
      if apply {
        BindKept(d, all, kept);
        assert View() == Apply(d, s);
      }
      c := Counts(|kept|, |kept * stored|, |kept - stored|, if apply then |kept - stored| else 0, existing, proposed, applied, dangling, unauthorized);
    }

    /** `bind_context_artifacts`, when there is something to bind. */
    method BindKept(d: Domain, all: set<Ref>, kept: set<Ref>)
      requires Bindable() && kept == Valid(d, all) && forall r | r in all :: ValidRef(r)
      modifies this`refs
      ensures Bindable() && Elements(refs) == Elements(old(refs)) + kept && (kept != {} ==> Canonical(refs))
    {
      if kept != {} {
        var bound := Listed(kept);
        assert forall r | r in bound :: r in Elements(bound);
        refs := MergeArtifactRefs(refs, bound);
      }
    }
  }

  /** The rows that writing some kept edges adds. */
  function Inserted(apply: bool, done: set<Edge>, was: set<Edge>, keyed: set<Edge>): set<Edge> {
    if apply then done - was - keyed else {}
  }

  /** The edge loop's state after some of the kept edges. */
  ghost predicate StoredSoFar(
      apply: bool, done: set<Edge>, was: set<Edge>, wasKeyed: set<Edge>, found: set<Edge>, keyed: set<Edge>, existing: nat, proposed: nat) {
    && existing == |done * was| && proposed == |done - was|
    && found == was + Inserted(apply, done, was, wasKeyed) && keyed == wasKeyed + Inserted(apply, done, was, wasKeyed)
  }

  lemma StoredNothing(apply: bool, was: set<Edge>, keyed: set<Edge>)
    ensures StoredSoFar(apply, {}, was, keyed, was, keyed, 0, 0)
  {
    assert {} * was == {} && {} - was == {};
  }

  lemma CountOne(done: set<Edge>, e: Edge, was: set<Edge>)
    requires e !in done
    ensures |(done + {e}) * was| == |done * was| + if e in was then 1 else 0
    ensures |(done + {e}) - was| == |done - was| + if e in was then 0 else 1
  {
    if e in was {
      assert (done + {e}) * was == done * was + {e} && (done + {e}) - was == done - was;
    } else {
      assert (done + {e}) * was == done * was && (done + {e}) - was == done - was + {e};
    }
  }

  lemma InsertOne(apply: bool, done: set<Edge>, e: Edge, was: set<Edge>, keyed: set<Edge>)
    requires e !in done
    ensures e !in Inserted(apply, done, was, keyed)
    ensures Inserted(apply, done + {e}, was, keyed)
      == if apply && e !in was && e !in keyed then Inserted(apply, done, was, keyed) + {e} else Inserted(apply, done, was, keyed)
  {
  }

  lemma StoreOne(
      apply: bool, done: set<Edge>, e: Edge, was: set<Edge>, wasKeyed: set<Edge>, found: set<Edge>, keyed: set<Edge>, existing: nat, proposed: nat)
    requires e !in done && StoredSoFar(apply, done, was, wasKeyed, found, keyed, existing, proposed)
    ensures e in found ==> StoredSoFar(apply, done + {e}, was, wasKeyed, found, keyed, existing + 1, proposed)
    ensures e !in found && !apply ==> StoredSoFar(apply, done + {e}, was, wasKeyed, found, keyed, existing, proposed + 1)
    ensures e !in found && apply && e in keyed ==> StoredSoFar(apply, done + {e}, was, wasKeyed, found, keyed, existing, proposed + 1)
    ensures e !in found && apply && e !in keyed
      ==> StoredSoFar(apply, done + {e}, was, wasKeyed, found + {e}, keyed + {e}, existing, proposed + 1)
  {
    hide Inserted;
    CountOne(done, e, was);
    InsertOne(apply, done, e, was, wasKeyed);
    var more := Inserted(apply, done, was, wasKeyed);
    assert e in found <==> e in was;
    assert e in keyed <==> e in wasKeyed;
    if e !in found && apply && e !in keyed {
      assert was + more + {e} == was + (more + {e}) && wasKeyed + more + {e} == wasKeyed + (more + {e});
    }
  }

  /** The kept references as a list. */
  method Listed(kept: set<Ref>) returns (rs: seq<Ref>)
    ensures Elements(rs) == kept
  {
    rs := [];
    var todo := kept;
    while todo != {}
      invariant todo <= kept && Elements(rs) == kept - todo
      decreases |todo|
    {
      var r :| r in todo;
      assert Elements(rs + [r]) == Elements(rs) + {r};
      rs, todo := rs + [r], todo - {r};
    }
  }
}
