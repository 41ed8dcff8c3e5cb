/**
 The persistence boundary of an alert candidate (alert_dispatch.py): the materializer rebuilds the
 observation from the stored evaluation and the candidate's evidence, re-runs the rule and compares.
 `_canonical_equal` compares canonical bytes, which is equality of canonical values.
 */
module Materialization {
  import opened Json
  import opened Evaluation

  datatype Outcome = Observed | WasMatched | WasIgnored | WasRejected

  /** A row of watch_rule_evaluations. */
  datatype EvaluationRow = EvaluationRow(
    id: string, tenant: string, owner: string, team: string, issuer: Option<string>, portfolio: Option<string>,
    ruleId: string, ruleVersion: int, signal: Signal, scope: SubjectScope, source: string, key: string,
    outcome: Outcome, correlation: string, root: string, hops: int, evaluatedAt: int, detail: Json)

  /** The row a claim inserts for an observation of a rule version. */
  function StoredEvaluation(env: Env, v: Version, o: Observation, id: string): EvaluationRow {
    EvaluationRow(id, o.scope.tenant, v.owner, v.team, o.scope.issuer, o.scope.portfolio, v.ruleId, v.version, v.signal,
                  o.scope, o.source, ObservationKey(env, v, o), Observed, o.correlation, o.root, o.hops, o.observedAt.utc, o.detail)
  }

  /** The six evidence fields, when the object has exactly those keys. */
  function AsEvidence(j: Json): (r: Option<Evidence>)
    ensures r.Some? ==> ToJson(r.value) == j
  {
    if j.JObj? && |j.fields| == 6 && j.fields[0].key == "categorical_value" && j.fields[1].key == "detail"
       && j.fields[2].key == "numeric_value" && j.fields[3].key == "observed_at"
       && j.fields[4].key == "source_artifact_refs" && j.fields[5].key == "source_identity" then
      Some(Evidence(j.fields[0].val, j.fields[1].val, j.fields[2].val, j.fields[3].val, j.fields[4].val, j.fields[5].val))
    else None
  }

  /** The size a well-formed reference marker declares: its count is 1..64 and its size possible for that count. */
  function MarkerSize(j: Json): Option<nat> {
    if j.JObj? && |j.fields| == 4 && j.fields[0].key == "canonical_bytes" && j.fields[1].key == "count"
       && j.fields[2].key == "omitted" && j.fields[3].key == "sha256"
       && j.fields[0].val.JInt? && j.fields[1].val.JInt? && j.fields[2].val == JBool(true) && j.fields[3].val.JStr?
       && 1 <= j.fields[1].val.n <= 64
       && 3 * j.fields[1].val.n + 1 <= j.fields[0].val.n <= 3075 * j.fields[1].val.n + 1
       && IsHexKey(j.fields[3].val.s) then
      Some(j.fields[0].val.n)
    else None
  }

  function Texts(items: seq<Json>): Option<seq<string>> {
    if items == [] then Some([])
    else if !items[0].JStr? then None
    else
      match Texts(items[1..])
      case None => None
      case Some(rest) => Some([items[0].s] + rest)
  }

  lemma {:induction false} TextsOfStrings(refs: seq<string>)
    ensures Texts(Strings(refs)) == Some(refs)
  {
    if refs != [] {
      TextsOfStrings(refs[1..]);
      assert Strings(refs)[1..] == Strings(refs[1..]);
      assert refs == [refs[0]] + refs[1..];
    }
  }

  /** The references to rebuild with and whether they were recovered, or None when the truncation is not the producer's. */
  function RecoveredRefs(env: Env, detail: Json, e: Evidence): Option<(seq<string>, bool)> {
    var omitted := e.detail == OmissionMarker(env, detail);
    var restored := e.(detail := detail);
    if e.detail != detail && !omitted then None
    else if e.refs.JArr? then
      if (if omitted then Size(ToJson(restored)) <= MAX_EVIDENCE_BYTES || Size(ToJson(e)) > MAX_EVIDENCE_BYTES
          else Size(ToJson(restored)) > MAX_EVIDENCE_BYTES) then None
      else
        match Texts(e.refs.items)
        case None => None
        case Some(refs) => Some((refs, true))
    else
      match MarkerSize(e.refs)
      case None => None
      case Some(size) =>
        var empty := Size(JArr([]));
        if omitted
           && Size(ToJson(restored.(refs := JArr([])))) - empty + size > MAX_EVIDENCE_BYTES
           && Size(ToJson(e.(refs := JArr([])))) - empty + size > MAX_EVIDENCE_BYTES then Some(([], false))
        else None
  }

  /**
   `_validated_observation_from_evidence`. A numeric or categorical value pydantic would coerce re-serialises
   differently and fails the final comparison, so it is refused here already.
   */
  function RebuiltObservation(env: Env, ev: EvaluationRow, c: Candidate): Option<(Observation, bool)> {
    match AsEvidence(c.evidence)
    case None => None
    case Some(e) =>
      if e.source != JStr(ev.source) || !e.observedAt.JStr? then None
      else if !(e.numeric.JNull? || e.numeric.JFloat?) || !(e.categorical.JNull? || e.categorical.JStr?) then None
      else
        match (env.parse(e.observedAt.s), RecoveredRefs(env, ev.detail, e))
        case (Some(stamp), Some((refs, recovered))) =>
          var o := Observation(
            ev.signal, ev.scope, ev.source, stamp,
            if e.numeric.JFloat? then Some(e.numeric.f) else None,
            if e.categorical.JStr? then Some(e.categorical.s) else None,
            ev.detail, refs, ev.correlation, ev.root, ev.hops);
          if stamp.utc == ev.evaluatedAt && ValidObservation(env, o) then Some((o, recovered)) else None
        case _ => None
  }

  predicate IdentityMatches(ev: EvaluationRow, v: Version, c: Candidate, expected: Candidate) {
    && ev.id == c.evaluationId && ev.tenant == c.scope.tenant && ev.owner != ""
    && ev.ruleId == c.ruleId && ev.ruleVersion == c.ruleVersion && ev.signal == c.signal
    && ScopeJson(ev.scope) == ScopeJson(c.scope) && ev.issuer == c.issuer && ev.portfolio == c.portfolio
    && ev.key == c.observationKey == expected.observationKey && c.alertKey == expected.alertKey
    && ev.correlation == c.correlation && ev.root == c.root && ev.hops == c.hops
    && (ev.outcome.Observed? || ev.outcome.WasMatched?)
    && v.ruleId == ev.ruleId && v.version == ev.ruleVersion && v.owner == ev.owner && v.team == ev.team && v.signal == ev.signal
    && v.config.Some?
    && c.kind == v.config.value.kind == expected.kind
    && c.title == v.config.value.title == expected.title
    && c.impact == v.config.value.impact == expected.impact
    && c.runId == expected.runId
    && c.authority == Authority(ev.key, ev.source, ev.ruleId, ev.ruleVersion) == expected.authority
  }

  /** The re-run evidence with the detail marker and the candidate's own reference marker put in. */
  function Patched(env: Env, detail: Json, expected: Json, given: Json): Option<Json> {
    match (AsEvidence(expected), AsEvidence(given))
    case (Some(x), Some(g)) => Some(ToJson(x.(detail := OmissionMarker(env, detail), refs := g.refs)))
    case _ => None
  }

  /** `_candidate_matches_evaluation`. */
  predicate CandidateMatches(env: Env, ev: EvaluationRow, v: Version, c: Candidate) {
    v.config.Some? &&
    match RebuiltObservation(env, ev, c)
    case None => false
    case Some((o, recovered)) =>
      match EvaluateRule(env, v, o, ev.id)
      case Matched(expected) =>
        && IdentityMatches(ev, v, c, expected)
        && (if recovered then c.evidence == expected.evidence
            else Patched(env, ev.detail, expected.evidence, c.evidence) == Some(c.evidence))
      case _ => false
  }

  /** The one evidence the checker cannot tell apart: a detail equal to its own omission marker. */
  predicate SelfReferential(env: Env, detail: Json) { detail == OmissionMarker(env, detail) }

  lemma MarkerSizeOfCounted(env: Env, o: Observation)
    requires Sound(env) && ValidObservation(env, o) && o.refs != []
    ensures MarkerSize(CountedMarker(env, RefList(o), |o.refs|)) == Some(Size(RefList(o)))
  {
    hide Size, CharsSize;
    RefListSize(o);
    assert IsHexKey(env.hash(RefList(o)));
  }

  /** What the checker recovers from the producer's evidence, in each truncation shape. */
  lemma RecoveredFromProduced(env: Env, o: Observation)
    requires Sound(env) && ValidObservation(env, o)
    ensures
      var r := RecoveredRefs(env, o.detail, BoundedEvidence(env, o));
      match ShapeOf(env, o)
      case Full => r == (if SelfReferential(env, o.detail) then None else Some((o.refs, true)))
      case DetailOmitted => r == Some((o.refs, true))
      case AllOmitted => r == Some(([], false))
  {
    hide Size, CharsSize, MarkerSize, ToJson;
    var e := BoundedEvidence(env, o);
    TextsOfStrings(o.refs);
    if ShapeOf(env, o).AllOmitted? {
      AllOmittedHasRefs(env, o);
      MarkerSizeOfCounted(env, o);
      var empty := JArr([]);
      EvidenceSize(e.(refs := empty));
      EvidenceSize(e.(detail := o.detail, refs := empty));
      EvidenceSize(FullEvidence(o));
      EvidenceSize(WithoutDetail(env, o));
      assert e.(detail := o.detail).(refs := empty) == e.(detail := o.detail, refs := empty);
    } else {
      assert e.(detail := o.detail) == FullEvidence(o);
    }
  }

  lemma AsEvidenceOfJson(e: Evidence)
    ensures AsEvidence(ToJson(e)) == Some(e)
  {
    hide CharsSize;
  }

  /** Dropping the references changes nothing in a decision but the evidence. */
  lemma DecisionWithoutRefs(env: Env, v: Version, o: Observation, id: string)
    ensures
      var (d, d') := (EvaluateRule(env, v, o, id), EvaluateRule(env, v, o.(refs := []), id));
      d.Matched? ==> d'.Matched? && d'.candidate == d.candidate.(evidence := ToJson(BoundedEvidence(env, o.(refs := []))))
  {
    hide Size, CharsSize, ToJson, BoundedEvidence;
  }

  /** The row is the claim's, not yet decided or decided as this match. */
  predicate RowFor(env: Env, v: Version, o: Observation, ev: EvaluationRow) {
    ev == StoredEvaluation(env, v, o, ev.id) || ev == StoredEvaluation(env, v, o, ev.id).(outcome := WasMatched)
  }

  /** What the checker rebuilds from the producer's candidate. */
  lemma RebuiltFromProduced(env: Env, v: Version, o: Observation, ev: EvaluationRow)
    requires Sound(env) && ValidObservation(env, o) && RowFor(env, v, o, ev) && EvaluateRule(env, v, o, ev.id).Matched?
    ensures
      RebuiltObservation(env, ev, EvaluateRule(env, v, o, ev.id).candidate) ==
        match ShapeOf(env, o)
        case Full => if SelfReferential(env, o.detail) then None else Some((o, true))
        case DetailOmitted => Some((o, true))
        case AllOmitted => Some((o.(refs := []), false))
  {
    hide Size, CharsSize, ToJson, RecoveredRefs, AsEvidence, ShapeOf, SelfReferential, ObservationKey;
    AsEvidenceOfJson(BoundedEvidence(env, o));
    RecoveredFromProduced(env, o);
  }

  /** The identity of the candidate agrees with the row and with the re-run. */
  lemma IdentityAgrees(env: Env, v: Version, o: Observation, ev: EvaluationRow)
    requires v.owner != "" && RowFor(env, v, o, ev) && EvaluateRule(env, v, o, ev.id).Matched?
    ensures var c := EvaluateRule(env, v, o, ev.id).candidate; IdentityMatches(ev, v, c, c)
  {
    hide Size, CharsSize, BoundedEvidence;
  }

  /** With the references at hand the re-run is the candidate itself. */
  lemma AcceptedWithRefs(env: Env, v: Version, o: Observation, ev: EvaluationRow)
    requires Sound(env) && ValidObservation(env, o) && v.owner != "" && RowFor(env, v, o, ev) && EvaluateRule(env, v, o, ev.id).Matched?
    requires !ShapeOf(env, o).AllOmitted?
    ensures CandidateMatches(env, ev, v, EvaluateRule(env, v, o, ev.id).candidate)
            <==> !(ShapeOf(env, o).Full? && SelfReferential(env, o.detail))
  {
    RebuiltFromProduced(env, v, o, ev);
    IdentityAgrees(env, v, o, ev);
    MatchedHasConfig(env, v, o, ev.id);
    hide RebuiltObservation, EvaluateRule, IdentityMatches, ShapeOf, SelfReferential, Patched, ValidObservation, RowFor;
  }

  lemma MatchedHasConfig(env: Env, v: Version, o: Observation, id: string)
    requires EvaluateRule(env, v, o, id).Matched?
    ensures v.config.Some?
  {
    hide MatchedCandidate;
  }

  /** Without them the re-run differs from the candidate by the two markers alone. */
  lemma AcceptedWithoutRefs(env: Env, v: Version, o: Observation, ev: EvaluationRow)
    requires Sound(env) && ValidObservation(env, o) && v.owner != "" && RowFor(env, v, o, ev) && EvaluateRule(env, v, o, ev.id).Matched?
    requires ShapeOf(env, o).AllOmitted?
    ensures CandidateMatches(env, ev, v, EvaluateRule(env, v, o, ev.id).candidate)
  {
    var o' := o.(refs := []);
    RebuiltFromProduced(env, v, o, ev);
    IdentityAgrees(env, v, o, ev);
    MatchedHasConfig(env, v, o, ev.id);
    DecisionWithoutRefs(env, v, o, ev.id);
    PatchedIsProduced(env, v, o, ev.id);
    hide RebuiltObservation, EvaluateRule, IdentityMatches, ShapeOf, SelfReferential, Patched, ValidObservation, RowFor, BoundedEvidence, ToJson;
    var c := EvaluateRule(env, v, o, ev.id).candidate;
    var c' := EvaluateRule(env, v, o', ev.id).candidate;
    SameIdentity(ev, v, c, c');
  }

  lemma SameIdentity(ev: EvaluationRow, v: Version, c: Candidate, c': Candidate)
    requires IdentityMatches(ev, v, c, c) && c' == c.(evidence := c'.evidence)
    ensures IdentityMatches(ev, v, c, c')
  {
  }

  lemma PatchedIsProduced(env: Env, v: Version, o: Observation, id: string)
    requires ShapeOf(env, o).AllOmitted? && EvaluateRule(env, v, o, id).Matched?
    ensures
      var c := EvaluateRule(env, v, o, id).candidate;
      Patched(env, o.detail, ToJson(BoundedEvidence(env, o.(refs := []))), c.evidence) == Some(c.evidence)
  {
    AsEvidenceOfJson(BoundedEvidence(env, o));
    AsEvidenceOfJson(BoundedEvidence(env, o.(refs := [])));
    hide Size, CharsSize, ToJson, AsEvidence, ShapeOf, ObservationKey;
  }

  /**
   Producer and checker agree: whatever the truncation shape, the candidate of a match passes the check on the
   evaluation stored for it, unless it carries its whole detail and that detail is its own omission marker.
   */
  lemma CheckerAcceptsProducer(env: Env, v: Version, o: Observation, ev: EvaluationRow)
    requires Sound(env) && ValidObservation(env, o) && v.owner != ""
    requires ev == StoredEvaluation(env, v, o, ev.id) || ev == StoredEvaluation(env, v, o, ev.id).(outcome := WasMatched)
    requires EvaluateRule(env, v, o, ev.id).Matched?
    ensures CandidateMatches(env, ev, v, EvaluateRule(env, v, o, ev.id).candidate)
            <==> !(ShapeOf(env, o).Full? && SelfReferential(env, o.detail))
  {
    assert RowFor(env, v, o, ev);
    hide *;
    if ShapeOf(env, o).AllOmitted? {
      AcceptedWithoutRefs(env, v, o, ev);
    } else {
      AcceptedWithRefs(env, v, o, ev);
    }
  }

  lemma ScopeJsonInjective(a: SubjectScope, b: SubjectScope)
    requires ScopeJson(a) == ScopeJson(b)
    ensures a == b
  {
    assert ScopeJson(a).fields[0] == ScopeJson(b).fields[0];
    assert ScopeJson(a).fields[1] == ScopeJson(b).fields[1];
    assert ScopeJson(a).fields[2] == ScopeJson(b).fields[2];
  }

  /**
   Conversely an accepted candidate is the re-run decision, field for field; when the references are gone, its
   evidence differs from the re-run's only by the two markers, and its reference marker is well formed.
   */
  lemma AcceptedIsRerun(env: Env, ev: EvaluationRow, v: Version, c: Candidate)
    requires ValidCandidate(c) && CandidateMatches(env, ev, v, c)
    ensures
      var (o, recovered) := RebuiltObservation(env, ev, c).value;
      var d := EvaluateRule(env, v, o, ev.id);
      && d.Matched?
      && (recovered ==> c == d.candidate)
      && (!recovered ==>
            && AsEvidence(c.evidence).Some? && MarkerSize(AsEvidence(c.evidence).value.refs).Some?
            && AsEvidence(d.candidate.evidence).Some?
            && c == d.candidate.(evidence := ToJson(AsEvidence(d.candidate.evidence).value.(
                      detail := OmissionMarker(env, ev.detail), refs := AsEvidence(c.evidence).value.refs))))
  {
    hide Size, CharsSize, ToJson, MarkerSize, AsEvidence, ShapeOf, BoundedEvidence;
    ScopeJsonInjective(ev.scope, c.scope);
  }

  // ---------------------------------------------------------------- what is refused

  /** A marker in place of n references: their number, a size that so many can have, and a hash. */
  predicate IsMarker(j: Json, size: int, count: int, digest: string) {
    && j == JObj([Field("canonical_bytes", JInt(size)), Field("count", JInt(count)), Field("omitted", JBool(true)), Field("sha256", JStr(digest))])
    && 1 <= count <= 64 && 3 * count + 1 <= size <= 3075 * count + 1
    && |digest| == 64 && forall c | c in digest :: '0' <= c <= '9' || 'a' <= c <= 'f'
  }

  /** Only such a marker is taken for one, at the size it states. */
  lemma MarkerSizeIff(j: Json, size: nat)
    ensures MarkerSize(j) == Some(size) <==> exists count: int, digest: string :: IsMarker(j, size, count, digest)
  {
    if MarkerSize(j) == Some(size) {
      var (f, count, digest) := (j.fields, j.fields[1].val.n, j.fields[3].val.s);
      assert f == [Field("canonical_bytes", JInt(size)), Field("count", JInt(count)), Field("omitted", JBool(true)), Field("sha256", JStr(digest))];
      assert IsMarker(j, size, count, digest);
    }
    if count: int, digest: string :| IsMarker(j, size, count, digest) {
      assert forall i | 0 <= i < |digest| :: digest[i] in digest;
    }
  }

  /** The row, the version and the candidate speak of one evaluation, which is not decided otherwise. */
  lemma AcceptedIdentity(env: Env, ev: EvaluationRow, v: Version, c: Candidate)
    requires CandidateMatches(env, ev, v, c)
    ensures (c.evaluationId, c.ruleId, c.ruleVersion) == (ev.id, ev.ruleId, ev.ruleVersion) == (ev.id, v.ruleId, v.version)
    ensures (ev.owner, ev.team, ev.signal) == (v.owner, v.team, v.signal) && ev.owner != "" && ev.outcome in {Observed, WasMatched}
    ensures (c.signal, c.scope, c.issuer, c.portfolio, c.scope.tenant) == (ev.signal, ev.scope, ev.issuer, ev.portfolio, ev.tenant)
    ensures (c.correlation, c.root, c.hops) == (ev.correlation, ev.root, ev.hops)
    ensures c.observationKey == ev.key && c.alertKey == "c3:" + ev.key
    ensures v.config.Some? && (c.kind, c.title, c.impact) == (v.config.value.kind, v.config.value.title, v.config.value.impact)
  {
    hide Size, CharsSize, RebuiltObservation, BoundedEvidence;
    ScopeJsonInjective(ev.scope, c.scope);
  }

  /** What was rebuilt for an accepted candidate is a valid observation of the row. */
  lemma AcceptedObservation(env: Env, ev: EvaluationRow, v: Version, c: Candidate)
    requires CandidateMatches(env, ev, v, c)
    ensures
      var o := RebuiltObservation(env, ev, c).value.0;
      && ValidObservation(env, o) && o.observedAt.utc == ev.evaluatedAt
      && (o.signal, o.scope, o.source, o.detail) == (ev.signal, ev.scope, ev.source, ev.detail)
      && (o.correlation, o.root, o.hops) == (ev.correlation, ev.root, ev.hops)
  {
    hide Size, CharsSize, ToJson, RecoveredRefs, AsEvidence, EvaluateRule, IdentityMatches, ValidObservation;
  }

  /**
   The evidence of an accepted candidate is about the stored observation, and truncated no further than its size made
   it: whole where the whole fits, without its detail where that fits, and without its references where neither does.
   */
  lemma AcceptedEvidence(env: Env, ev: EvaluationRow, v: Version, c: Candidate) returns (e: Evidence)
    requires CandidateMatches(env, ev, v, c)
    ensures c.evidence == ToJson(e) && e.source == JStr(ev.source)
    ensures e.observedAt.JStr? && env.parse(e.observedAt.s).Some? && env.parse(e.observedAt.s).value.utc == ev.evaluatedAt
    ensures e.detail == ev.detail || e.detail == OmissionMarker(env, ev.detail)
    ensures e.refs.JArr? ==>
              if e.detail == OmissionMarker(env, ev.detail) then Size(ToJson(e)) <= 65536 < Size(ToJson(e.(detail := ev.detail)))
              else Size(ToJson(e)) <= 65536
    ensures !e.refs.JArr? ==>
              && MarkerSize(e.refs).Some? && e.detail == OmissionMarker(env, ev.detail)
              && var stated := MarkerSize(e.refs).value - Size(JArr([]));
              && Size(ToJson(e.(refs := JArr([])))) + stated > 65536
              && Size(ToJson(e.(refs := JArr([]), detail := ev.detail))) + stated > 65536
  {
    hide Size, CharsSize, ToJson, MarkerSize, OmissionMarker, EvaluateRule, IdentityMatches, ValidObservation, Texts;
    e := AsEvidence(c.evidence).value;
    assert e.(detail := ev.detail).(refs := JArr([])) == e.(refs := JArr([]), detail := ev.detail);
    assert e.detail == ev.detail ==> e.(detail := ev.detail) == e;
  }
}
