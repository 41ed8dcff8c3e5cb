/**
 Rule evaluation and the evidence it attaches to a match (alert_evaluation.py, alert_contracts.py).
 SHA-256 and the timestamp parser are parameters; pydantic validators are predicates.
 */
module Evaluation {
  import opened Json

  const MAX_EVIDENCE_BYTES: nat := 65536

  /** A timezone-aware instant with its ISO text (the text keeps the original offset). */
  datatype Stamp = Stamp(utc: int, text: string)

  /** The hash of a canonical value, and the ISO parser. */
  datatype Env = Env(hash: Json -> string, parse: string -> Option<Stamp>)

  ghost predicate Sound(env: Env) {
    forall j :: IsHexKey(env.hash(j))
  }

  predicate IsHexKey(s: string) {
    |s| == 64 && forall i | 0 <= i < |s| :: '0' <= s[i] <= '9' || 'a' <= s[i] <= 'f'
  }

  datatype Signal = RunFinding | QaGate | Covenant | EdgarFiling | MarketMove | Cp1bMonitoring | Cp1cPeerOutlier | News

  predicate Unavailable(s: Signal) { s.EdgarFiling? || s.MarketMove? || s.News? }

  predicate Categorical(s: Signal) { s.RunFinding? || s.QaGate? }

  datatype Operator = Present | Eq | Gt | Gte | Lt | Lte

  datatype Threshold = NoThreshold | TextThreshold(text: string) | NumThreshold(value: real)

  datatype RuleConfig = RuleConfig(operator: Operator, threshold: Threshold, kind: string, title: string, impact: string)

  /** The RuleConfig validators. */
  predicate ValidConfig(c: RuleConfig) {
    && 1 <= |c.kind| <= 64 && 1 <= |c.title| <= 240 && |c.impact| <= 4000
    && match c.operator
       case Present => c.threshold.NoThreshold?
       case Eq => c.threshold.NumThreshold? || (c.threshold.TextThreshold? && c.threshold.text != "")
       case _ => c.threshold.NumThreshold?
  }

  datatype SubjectScope = SubjectScope(tenant: string, issuer: Option<string>, portfolio: Option<string>)

  predicate ValidScopeId(id: Option<string>) { id.Some? ==> 1 <= Utf8Size(id.value) <= 36 && 1 <= |id.value| }

  predicate ValidScope(s: SubjectScope) {
    1 <= |s.tenant| && Utf8Size(s.tenant) <= 255 && ValidScopeId(s.issuer) && ValidScopeId(s.portfolio)
  }

  function OptionalText(s: Option<string>): Json { if s.Some? then JStr(s.value) else JNull }

  function ScopeJson(s: SubjectScope): Json {
    JObj([Field("issuer_id", OptionalText(s.issuer)), Field("portfolio_id", OptionalText(s.portfolio)),
          Field("tenant_id", JStr(s.tenant))])
  }

  datatype Observation = Observation(
    signal: Signal, scope: SubjectScope, source: string, observedAt: Stamp,
    numeric: Option<Float>, categorical: Option<string>, detail: Json, refs: seq<string>,
    correlation: string, root: string, hops: int)

  predicate Blank(c: char) {
    c in {' ', '\t', '\n', '\r', '\U{0B}', '\U{0C}', '\U{1C}', '\U{1D}', '\U{1E}', '\U{1F}', '\U{85}', '\U{A0}',
          '\U{1680}', '\U{2028}', '\U{2029}', '\U{202F}', '\U{205F}', '\U{3000}'}
    || '\U{2000}' <= c <= '\U{200A}'
  }

  predicate Trimmed(s: string) { s != "" ==> !Blank(s[0]) && !Blank(s[|s| - 1]) }

  /** A validated wire string: stripped, bounded, storable as jsonb. */
  predicate WireText(s: string) { |s| <= 512 && Trimmed(s) && NoNul(s) }

  /** The SignalObservation validators. */
  predicate ValidObservation(env: Env, o: Observation) {
    && ValidScope(o.scope)
    && o.source != "" && WireText(o.source)
    && |o.observedAt.text| <= 64 && NoNul(o.observedAt.text)
    && env.parse(o.observedAt.text) == Some(o.observedAt)
    && (o.numeric.Some? ==> |o.numeric.value.text| <= 24)
    && (o.categorical.Some? ==> WireText(o.categorical.value))
    && o.detail.JObj? && JsonbSafe(o.detail) && Size(o.detail) <= MAX_EVIDENCE_BYTES
    && |o.refs| <= 64 && (forall i | 0 <= i < |o.refs| :: WireText(o.refs[i]))
    && (o.numeric.Some? || o.categorical.Some? || o.detail.fields != [])
    && 0 <= o.hops <= 3
  }

  /** A persisted rule version; `config` is None when the stored JSON does not validate. */
  datatype Version = Version(
    ruleId: string, version: int, signal: Signal, config: Option<RuleConfig>, owner: string, team: string)

  predicate StoredVersion(v: Version) {
    |v.ruleId| == 36 && 1 <= v.version < 0x8000_0000 && (v.config.Some? ==> ValidConfig(v.config.value))
  }

  function ObservationKey(env: Env, v: Version, o: Observation): string {
    env.hash(JArr([JStr("c3-observation-v1"), JStr(v.ruleId), JInt(v.version), JStr(SignalText(v.signal)),
                   ScopeJson(o.scope), JStr(o.source)]))
  }

  function SignalText(s: Signal): string {
    match s
    case RunFinding => "run_finding" case QaGate => "qa_gate" case Covenant => "covenant"
    case EdgarFiling => "edgar_filing" case MarketMove => "market_move" case Cp1bMonitoring => "cp1b_monitoring"
    case Cp1cPeerOutlier => "cp1c_peer_outlier" case News => "news"
  }

  datatype Candidate = Candidate(
    evaluationId: string, ruleId: string, ruleVersion: int, observationKey: string, alertKey: string,
    signal: Signal, scope: SubjectScope, issuer: Option<string>, portfolio: Option<string>, runId: Option<string>,
    kind: string, title: string, impact: string, evidence: Json, authority: Json,
    correlation: string, root: string, hops: int)

  /** The AlertCandidate validators. */
  predicate ValidCandidate(c: Candidate) {
    && 1 <= c.ruleVersion && IsHexKey(c.observationKey) && c.alertKey == "c3:" + c.observationKey
    && ValidScope(c.scope) && c.issuer == c.scope.issuer && c.portfolio == c.scope.portfolio
    && (c.runId.Some? ==> |c.runId.value| <= 64)
    && 1 <= |c.kind| <= 64 && 1 <= |c.title| <= 240 && |c.impact| <= 4000
    && c.evidence.JObj? && JsonbSafe(c.evidence) && Size(c.evidence) <= MAX_EVIDENCE_BYTES
    && c.authority.JObj? && JsonbSafe(c.authority) && Size(c.authority) <= MAX_EVIDENCE_BYTES
    && 0 <= c.hops <= 3
  }

  datatype Decision = Matched(candidate: Candidate) | Ignored | Rejected(reason: string)

  function OmissionMarker(env: Env, value: Json): Json {
    JObj([Field("canonical_bytes", JInt(Size(value))), Field("omitted", JBool(true)),
          Field("sha256", JStr(env.hash(value)))])
  }

  function CountedMarker(env: Env, value: Json, count: nat): Json {
    JObj([Field("canonical_bytes", JInt(Size(value))), Field("count", JInt(count)), Field("omitted", JBool(true)),
          Field("sha256", JStr(env.hash(value)))])
  }

  /** The evidence object, its fields in canonical key order. */
  datatype Evidence = Evidence(categorical: Json, detail: Json, numeric: Json, observedAt: Json, refs: Json, source: Json)

  function ToJson(e: Evidence): Json {
    JObj([Field("categorical_value", e.categorical), Field("detail", e.detail), Field("numeric_value", e.numeric),
          Field("observed_at", e.observedAt), Field("source_artifact_refs", e.refs), Field("source_identity", e.source)])
  }

  function RefList(o: Observation): Json { JArr(Strings(o.refs)) }

  function FullEvidence(o: Observation): Evidence {
    Evidence(OptionalText(o.categorical), o.detail, if o.numeric.Some? then JFloat(o.numeric.value) else JNull,
             JStr(o.observedAt.text), RefList(o), JStr(o.source))
  }

  datatype Shape = Full | DetailOmitted | AllOmitted

  function WithoutDetail(env: Env, o: Observation): Evidence {
    FullEvidence(o).(detail := OmissionMarker(env, o.detail))
  }

  function ShapeOf(env: Env, o: Observation): Shape {
    if Size(ToJson(FullEvidence(o))) <= MAX_EVIDENCE_BYTES then Full
    else if Size(ToJson(WithoutDetail(env, o))) <= MAX_EVIDENCE_BYTES then DetailOmitted
    else AllOmitted
  }

  function BoundedEvidence(env: Env, o: Observation): Evidence {
    match ShapeOf(env, o)
    case Full => FullEvidence(o)
    case DetailOmitted => WithoutDetail(env, o)
    case AllOmitted => WithoutDetail(env, o).(refs := CountedMarker(env, RefList(o), |o.refs|))
  }

  function NumericMatch(op: Operator, value: real, t: Threshold): bool {
    if op.Present? then true
    else if !t.NumThreshold? then false
    else
      match op
      case Eq => value == t.value
      case Gt => value > t.value
      case Gte => value >= t.value
      case Lt => value < t.value
      case _ => value <= t.value
  }

  /** Whether a categorical signal matches, or the reason it is rejected. */
  function CategoricalMatch(c: RuleConfig, o: Observation): (bool, Option<string>) {
    if c.operator.Present? then (true, None)
    else if c.threshold.TextThreshold? then
      if o.categorical.None? then (false, Some("categorical_required"))
      else (o.categorical.value == c.threshold.text, None)
    else if o.numeric.None? then (false, Some("numeric_required"))
    else (c.threshold.NumThreshold? && o.numeric.value.value == c.threshold.value, None)
  }

  function RunIdOf(detail: Json): Option<string> {
    if !detail.JObj? then None
    else
      match Lookup(detail.fields, "run_id")
      case Some(JStr(s)) => if |s| <= 64 then Some(s) else None
      case _ => None
  }

  function Authority(key: string, source: string, ruleId: string, version: int): Json {
    JObj([Field("observation_key", JStr(key)), Field("rule_version", JInt(version)),
          Field("source_identity", JStr(source)), Field("watch_rule_id", JStr(ruleId))])
  }

  function MatchedCandidate(env: Env, v: Version, c: RuleConfig, o: Observation, evaluationId: string): Candidate {
    var key := ObservationKey(env, v, o);
    Candidate(evaluationId, v.ruleId, v.version, key, "c3:" + key, o.signal, o.scope, o.scope.issuer, o.scope.portfolio,
              RunIdOf(o.detail), c.kind, c.title, c.impact, ToJson(BoundedEvidence(env, o)),
              Authority(key, o.source, v.ruleId, v.version), o.correlation, o.root, o.hops)
  }

  function EvaluateRule(env: Env, v: Version, o: Observation, evaluationId: string): Decision {
    if v.version < 1 then Rejected("invalid_rule_version")
    else if v.signal != o.signal then Rejected("signal_mismatch")
    else if Unavailable(v.signal) then Rejected("source_unavailable")
    else if v.config.None? then Rejected("invalid_rule_config")
    else
      var c := v.config.value;
      var result :=
        if Categorical(v.signal) then
          if !(c.operator.Present? || c.operator.Eq?) then (false, Some("invalid_rule_config"))
          else CategoricalMatch(c, o)
        else if o.numeric.None? then (false, Some("numeric_required"))
        else if c.threshold.TextThreshold? then (false, Some("invalid_rule_config"))
        else (NumericMatch(c.operator, o.numeric.value.value, c.threshold), None);
      if result.1.Some? then Rejected(result.1.value)
      else if !result.0 then Ignored
      else Matched(MatchedCandidate(env, v, c, o, evaluationId))
  }

  // ---------------------------------------------------------------- sizes

  function KeySizes(): nat {
    StrSize("categorical_value") + StrSize("detail") + StrSize("numeric_value") + StrSize("observed_at")
    + StrSize("source_artifact_refs") + StrSize("source_identity")
  }

  function Overhead(): nat { KeySizes() + 13 }

  /** Evidence size is its fixed overhead plus the size of each field. */
  lemma EvidenceSize(e: Evidence)
    ensures Size(ToJson(e)) == Overhead() + Size(e.categorical) + Size(e.detail) + Size(e.numeric)
                               + Size(e.observedAt) + Size(e.refs) + Size(e.source)
  {
    hide CharsSize;
    var f := ToJson(e).fields;
    assert f[1..][0] == f[1] && f[2..][0] == f[2] && f[3..][0] == f[3] && f[4..][0] == f[4] && f[5..][0] == f[5];
    assert f[1..][1..] == f[2..] && f[2..][1..] == f[3..] && f[3..][1..] == f[4..] && f[4..][1..] == f[5..] && f[5..][1..] == [];
    assert FieldsSize(f[5..]) == StrSize(f[5].key) + 1 + Size(f[5].val);
    assert FieldsSize(f[4..]) == StrSize(f[4].key) + 1 + Size(f[4].val) + 1 + FieldsSize(f[5..]);
    assert FieldsSize(f[3..]) == StrSize(f[3].key) + 1 + Size(f[3].val) + 1 + FieldsSize(f[4..]);
    assert FieldsSize(f[2..]) == StrSize(f[2].key) + 1 + Size(f[2].val) + 1 + FieldsSize(f[3..]);
    assert FieldsSize(f[1..]) == StrSize(f[1].key) + 1 + Size(f[1].val) + 1 + FieldsSize(f[2..]);
    assert FieldsSize(f) == StrSize(f[0].key) + 1 + Size(f[0].val) + 1 + FieldsSize(f[1..]);
  }

  lemma OverheadBound()
    ensures Overhead() <= 600
  {
    CharsSizeBounds("categorical_value");
    CharsSizeBounds("detail");
    CharsSizeBounds("numeric_value");
    CharsSizeBounds("observed_at");
    CharsSizeBounds("source_artifact_refs");
    CharsSizeBounds("source_identity");
  }

  lemma SmallObject(fields: seq<Field>, keyLimit: nat, valueLimit: nat)
    requires forall i | 0 <= i < |fields| :: |fields[i].key| <= keyLimit && Size(fields[i].val) <= valueLimit
    ensures Size(JObj(fields)) <= 2 + |fields| * (6 * keyLimit + valueLimit + 4)
  {
    SmallFields(fields, keyLimit, valueLimit);
  }

  lemma {:induction false} SmallFields(fields: seq<Field>, keyLimit: nat, valueLimit: nat)
    requires forall i | 0 <= i < |fields| :: |fields[i].key| <= keyLimit && Size(fields[i].val) <= valueLimit
    ensures FieldsSize(fields) <= |fields| * (6 * keyLimit + valueLimit + 4)
  {
    hide Size, CharsSize;
    if fields != [] {
      SmallFields(fields[1..], keyLimit, valueLimit);
      CharsSizeBounds(fields[0].key);
      OneMore(|fields|, 6 * keyLimit + valueLimit + 4);
    }
  }

  lemma OneMore(n: nat, unit: nat)
    requires n > 0
    ensures n * unit == unit + (n - 1) * unit
  {}

  lemma TextSize(s: string, limit: nat)
    requires |s| <= limit
    ensures Size(JStr(s)) <= 6 * limit + 2
  {
    CharsSizeBounds(s);
  }

  lemma MarkerSizes(env: Env, detail: Json, refs: Json, count: nat)
    requires Sound(env) && Size(detail) <= MAX_EVIDENCE_BYTES && Size(refs) < 1000000 && count <= 64
    ensures Size(OmissionMarker(env, detail)) <= 2000
    ensures Size(CountedMarker(env, refs, count)) <= 2000
  {
    hide CharsSize;
    assert Pow10(5) == 100000 && Pow10(6) == 1000000 && Pow10(2) == 100;
    DigitCountBound(Size(detail), 6);
    DigitCountBound(Size(refs), 6);
    DigitCountBound(count, 2);
    TextSize(env.hash(detail), 64);
    TextSize(env.hash(refs), 64);
    SmallObject(OmissionMarker(env, detail).fields, 15, 386);
    SmallObject(CountedMarker(env, refs, count).fields, 15, 386);
  }

  lemma RefListSize(o: Observation)
    requires |o.refs| <= 64 && forall i | 0 <= i < |o.refs| :: WireText(o.refs[i])
    ensures o.refs == [] ==> Size(RefList(o)) == 2
    ensures o.refs != [] ==> 3 * |o.refs| + 1 <= Size(RefList(o)) <= 3075 * |o.refs| + 1
    ensures Size(RefList(o)) < 1000000
  {
    StringListSize(o.refs, 512);
  }

  /** Everything but the detail and the references is small. */
  lemma FixedPartSmall(env: Env, o: Observation)
    requires Sound(env) && ValidObservation(env, o)
    ensures
      var e := FullEvidence(o);
      Overhead() + Size(e.categorical) + Size(e.numeric) + Size(e.observedAt) + Size(e.source) <= 8000
  {
    hide CharsSize;
    OverheadBound();
    TextSize(o.source, 512);
    TextSize(o.observedAt.text, 64);
    if o.categorical.Some? {
      TextSize(o.categorical.value, 512);
    }
  }

  /** Whatever the observation carries, the attached evidence fits 64 KiB. */
  lemma BoundedEvidenceFits(env: Env, o: Observation)
    requires Sound(env) && ValidObservation(env, o)
    ensures Size(ToJson(BoundedEvidence(env, o))) <= MAX_EVIDENCE_BYTES
  {
    hide CharsSize;
    if ShapeOf(env, o).AllOmitted? {
      RefListSize(o);
      FixedPartSmall(env, o);
      MarkerSizes(env, o.detail, RefList(o), |o.refs|);
      EvidenceSize(BoundedEvidence(env, o));
    }
  }

  /** `_bounded_evidence`: the evidence is rewritten field by field until it fits. */
  method BoundEvidence(env: Env, o: Observation) returns (evidence: Evidence)
    requires Sound(env) && ValidObservation(env, o)
    ensures evidence == BoundedEvidence(env, o) && Size(ToJson(evidence)) <= MAX_EVIDENCE_BYTES
  {
    hide Size, CharsSize, ToJson, ValidObservation;
    BoundedEvidenceFits(env, o);
    evidence := FullEvidence(o);
    if Size(ToJson(evidence)) <= MAX_EVIDENCE_BYTES {
      return;
    }
    evidence := evidence.(detail := OmissionMarker(env, o.detail));
    if Size(ToJson(evidence)) <= MAX_EVIDENCE_BYTES {
      return;
    }
    evidence := evidence.(refs := CountedMarker(env, RefList(o), |o.refs|));
  }

  /** References are dropped only when there are some. */
  lemma AllOmittedHasRefs(env: Env, o: Observation)
    requires Sound(env) && ValidObservation(env, o) && ShapeOf(env, o).AllOmitted?
    ensures 1 <= |o.refs|
  {
    hide CharsSize;
    RefListSize(o);
    FixedPartSmall(env, o);
    MarkerSizes(env, o.detail, RefList(o), |o.refs|);
    EvidenceSize(WithoutDetail(env, o));
  }

  lemma StringsJsonbSafe(refs: seq<string>)
    requires forall i | 0 <= i < |refs| :: NoNul(refs[i])
    ensures JsonbSafe(JArr(Strings(refs)))
  {
    StringsAt(refs);
  }

  lemma HexIsSafe(s: string)
    requires IsHexKey(s)
    ensures NoNul(s)
  {}

  lemma MarkerKeysSafe()
    ensures NoNul("canonical_bytes") && NoNul("count") && NoNul("omitted") && NoNul("sha256")
  {}

  lemma OmissionSafe(env: Env, value: Json)
    requires NoNul(env.hash(value))
    ensures JsonbSafe(OmissionMarker(env, value))
  {
    hide Size, CharsSize, NoNul;
    MarkerKeysSafe();
    var f := OmissionMarker(env, value).fields;
    assert f[0].key == "canonical_bytes" && f[1].key == "omitted" && f[2].key == "sha256";
    SafeObject(f);
  }

  lemma CountedSafe(env: Env, value: Json, count: nat)
    requires NoNul(env.hash(value))
    ensures JsonbSafe(CountedMarker(env, value, count))
  {
    hide Size, CharsSize, NoNul;
    MarkerKeysSafe();
    var f := CountedMarker(env, value, count).fields;
    assert f[0].key == "canonical_bytes" && f[1].key == "count" && f[2].key == "omitted" && f[3].key == "sha256";
    SafeObject(f);
  }

  lemma MarkersJsonbSafe(env: Env, value: Json, count: nat)
    requires Sound(env)
    ensures JsonbSafe(OmissionMarker(env, value)) && JsonbSafe(CountedMarker(env, value, count))
  {
    hide Size, CharsSize, IsHexKey, NoNul, JsonbSafe, OmissionMarker, CountedMarker;
    HexIsSafe(env.hash(value));
    OmissionSafe(env, value);
    CountedSafe(env, value, count);
  }

  lemma SafeObject(fields: seq<Field>)
    requires forall i | 0 <= i < |fields| :: NoNul(fields[i].key) && JsonbSafe(fields[i].val)
    ensures JsonbSafe(JObj(fields))
  {}

  lemma FieldsJsonbSafe(e: Evidence)
    requires JsonbSafe(e.categorical) && JsonbSafe(e.detail) && JsonbSafe(e.numeric)
    requires JsonbSafe(e.observedAt) && JsonbSafe(e.refs) && JsonbSafe(e.source)
    ensures JsonbSafe(ToJson(e))
  {
    assert NoNul("categorical_value") && NoNul("detail") && NoNul("numeric_value");
    assert NoNul("observed_at") && NoNul("source_artifact_refs") && NoNul("source_identity");
    hide *;
    var f := [Field("categorical_value", e.categorical), Field("detail", e.detail), Field("numeric_value", e.numeric),
              Field("observed_at", e.observedAt), Field("source_artifact_refs", e.refs), Field("source_identity", e.source)];
    assert forall i | 0 <= i < |f| :: NoNul(f[i].key) && JsonbSafe(f[i].val);
    SafeObject(f);
  }

  lemma EvidenceJsonbSafe(env: Env, o: Observation)
    requires Sound(env) && ValidObservation(env, o)
    ensures JsonbSafe(ToJson(BoundedEvidence(env, o)))
  {
    hide CharsSize, ToJson, Size, CountedMarker, OmissionMarker;
    StringsJsonbSafe(o.refs);
    MarkersJsonbSafe(env, o.detail, 0);
    MarkersJsonbSafe(env, RefList(o), |o.refs|);
    FieldsJsonbSafe(BoundedEvidence(env, o));
  }

  lemma AuthorityJsonbSafe(key: string, source: string, ruleId: string, version: int)
    requires NoNul(key) && NoNul(source) && NoNul(ruleId)
    ensures JsonbSafe(Authority(key, source, ruleId, version))
  {
    var f := Authority(key, source, ruleId, version).fields;
    forall i | 0 <= i < |f| ensures NoNul(f[i].key) && JsonbSafe(f[i].val) {}
  }

  /** Every matched decision carries a candidate the wire contract accepts. */
  lemma MatchedCandidateValid(env: Env, v: Version, o: Observation, evaluationId: string)
    requires Sound(env) && ValidObservation(env, o) && StoredVersion(v) && NoNul(v.ruleId)
    ensures
      var d := EvaluateRule(env, v, o, evaluationId);
      d.Matched? ==> ValidCandidate(d.candidate)
  {
    hide CharsSize, Size, ValidCandidate, MatchedCandidate, ValidObservation;
    if EvaluateRule(env, v, o, evaluationId).Matched? {
      CandidateValid(env, v, v.config.value, o, evaluationId);
    }
  }

  lemma CandidateValid(env: Env, v: Version, c: RuleConfig, o: Observation, evaluationId: string)
    requires Sound(env) && ValidObservation(env, o) && StoredVersion(v) && NoNul(v.ruleId) && ValidConfig(c)
    ensures ValidCandidate(MatchedCandidate(env, v, c, o, evaluationId))
  {
    hide CharsSize, Size, JsonbSafe, BoundedEvidence;
    var key := ObservationKey(env, v, o);
    BoundedEvidenceFits(env, o);
    EvidenceJsonbSafe(env, o);
    HexIsSafe(key);
    AuthorityJsonbSafe(key, o.source, v.ruleId, v.version);
    AuthoritySize(env, v, o);
  }

  lemma AuthoritySize(env: Env, v: Version, o: Observation)
    requires Sound(env) && ValidObservation(env, o) && StoredVersion(v)
    ensures Size(Authority(ObservationKey(env, v, o), o.source, v.ruleId, v.version)) <= MAX_EVIDENCE_BYTES
  {
    hide CharsSize;
    var key := ObservationKey(env, v, o);
    assert |o.source| <= 512 && |key| <= 64 && |v.ruleId| <= 36 && 0 <= v.version < 10000000000;
    hide ValidObservation, ObservationKey, StoredVersion, Sound;
    assert Pow10(10) == 10000000000;
    DigitCountBound(v.version, 10);
    TextSize(key, 64);
    TextSize(o.source, 512);
    TextSize(v.ruleId, 36);
    SmallObject(Authority(key, o.source, v.ruleId, v.version).fields, 15, 3074);
  }

  // ---------------------------------------------------------------- what a rule decides

  /** A numeric rule with a number to compare with is matched on its operator's side of it, and ignored otherwise. */
  lemma NumericDecision(env: Env, v: Version, o: Observation, id: string)
    requires v.version >= 1 && v.signal == o.signal && v.signal in {Covenant, Cp1bMonitoring, Cp1cPeerOutlier}
    requires v.config.Some? && ValidConfig(v.config.value) && v.config.value.threshold.NumThreshold? && o.numeric.Some?
    ensures
      var (d, y, x) := (EvaluateRule(env, v, o, id), o.numeric.value.value, v.config.value.threshold.value);
      && !d.Rejected?
      && (d.Matched? <==> match v.config.value.operator
                          case Gt => y > x case Gte => y >= x case Lt => y < x case Lte => y <= x case _ => y == x)
  {
    hide ObservationKey, BoundedEvidence, Authority;
  }

  /** `present` asks for nothing but an available signal, and for a number where the signal is numeric. */
  lemma PresentDecision(env: Env, v: Version, o: Observation, id: string)
    requires v.version >= 1 && v.signal == o.signal && v.signal !in {EdgarFiling, MarketMove, News}
    requires v.config.Some? && ValidConfig(v.config.value) && v.config.value.operator == Present
    ensures EvaluateRule(env, v, o, id).Matched? <==> v.signal in {RunFinding, QaGate} || o.numeric.Some?
    ensures !EvaluateRule(env, v, o, id).Ignored?
  {
    hide ObservationKey, BoundedEvidence, Authority;
  }

  /** A categorical `eq` is matched by the same text or the same number, and ignored for another one of its kind. */
  lemma CategoricalDecision(env: Env, v: Version, o: Observation, id: string)
    requires v.version >= 1 && v.signal == o.signal && v.signal in {RunFinding, QaGate}
    requires v.config.Some? && ValidConfig(v.config.value) && v.config.value.operator == Eq
    ensures
      var (d, x) := (EvaluateRule(env, v, o, id), v.config.value.threshold);
      && (d.Matched? <==> (x.TextThreshold? && o.categorical == Some(x.text))
                          || (x.NumThreshold? && o.numeric.Some? && o.numeric.value.value == x.value))
      && (d.Ignored? <==> (x.TextThreshold? && o.categorical.Some? && o.categorical.value != x.text)
                          || (x.NumThreshold? && o.numeric.Some? && o.numeric.value.value != x.value))
  {
    hide ObservationKey, BoundedEvidence, Authority;
  }

  /** The versions that reach their rule: a real version of this signal, whose source is available. */
  predicate Reaches(v: Version, o: Observation) {
    v.version >= 1 && v.signal == o.signal && v.signal !in {EdgarFiling, MarketMove, News}
  }

  /** Each rejection, exactly when it is given. */
  lemma RejectedIff(env: Env, v: Version, o: Observation, id: string)
    requires v.config.Some? ==> ValidConfig(v.config.value)
    ensures
      var d := EvaluateRule(env, v, o, id);
      var categorical := v.signal in {RunFinding, QaGate};
      && (d == Rejected("invalid_rule_version") <==> v.version < 1)
      && (d == Rejected("signal_mismatch") <==> v.version >= 1 && v.signal != o.signal)
      && (d == Rejected("source_unavailable") <==> v.version >= 1 && v.signal == o.signal && v.signal in {EdgarFiling, MarketMove, News})
      && (d == Rejected("invalid_rule_config") <==>
          Reaches(v, o) && (v.config.None?
                            || (categorical && v.config.value.operator !in {Present, Eq})
                            || (!categorical && o.numeric.Some? && v.config.value.threshold.TextThreshold?)))
      && (d == Rejected("numeric_required") <==>
          Reaches(v, o) && v.config.Some? && o.numeric.None?
          && (!categorical || (v.config.value.operator == Eq && v.config.value.threshold.NumThreshold?)))
      && (d == Rejected("categorical_required") <==>
          Reaches(v, o) && v.config.Some? && o.categorical.None?
          && categorical && v.config.value.operator == Eq && v.config.value.threshold.TextThreshold?)
      && (d.Rejected? ==> d.reason in {"invalid_rule_version", "signal_mismatch", "source_unavailable", "invalid_rule_config",
                                       "numeric_required", "categorical_required"})
  {
    hide ObservationKey, BoundedEvidence, Authority;
  }

  /** The detail's run field names this run. */
  predicate NamesRun(detail: Json, run: string) {
    detail.JObj? && |run| <= 64
    && Holds(detail.fields, "run_id", JStr(run))
  }

  /** A match carries its observation's and its rule's columns unchanged, and the run its detail names. */
  lemma MatchCarries(env: Env, v: Version, o: Observation, id: string, run: string)
    requires EvaluateRule(env, v, o, id).Matched? && v.config.Some?
    ensures
      var (c, config) := (EvaluateRule(env, v, o, id).candidate, v.config.value);
      && (c.evaluationId, c.ruleId, c.ruleVersion) == (id, v.ruleId, v.version)
      && (c.signal, c.scope, c.issuer, c.portfolio) == (o.signal, o.scope, o.scope.issuer, o.scope.portfolio)
      && (c.kind, c.title, c.impact) == (config.kind, config.title, config.impact)
      && (c.correlation, c.root, c.hops) == (o.correlation, o.root, o.hops)
      && (c.runId == Some(run) <==> NamesRun(o.detail, run))
  {
    hide ObservationKey, BoundedEvidence, Authority, Lookup;
    if o.detail.JObj? {
      LookupIsLast(o.detail.fields, "run_id", JStr(run));
    }
  }

  /** What a match shows of its observation: everything, as long as the whole fits. */
  lemma MatchShows(env: Env, v: Version, o: Observation, id: string)
    requires EvaluateRule(env, v, o, id).Matched?
    ensures
      var c := EvaluateRule(env, v, o, id).candidate;
      var whole := JObj([
        Field("categorical_value", if o.categorical.Some? then JStr(o.categorical.value) else JNull), Field("detail", o.detail),
        Field("numeric_value", if o.numeric.Some? then JFloat(o.numeric.value) else JNull), Field("observed_at", JStr(o.observedAt.text)),
        Field("source_artifact_refs", JArr(Strings(o.refs))), Field("source_identity", JStr(o.source))]);
      && (c.evidence == whole <==> Size(whole) <= 65536)
      && c.authority == JObj([Field("observation_key", JStr(c.observationKey)), Field("rule_version", JInt(v.version)),
                              Field("source_identity", JStr(o.source)), Field("watch_rule_id", JStr(v.ruleId))])
      && c.alertKey == "c3:" + c.observationKey
  {
    hide ObservationKey, Size;
  }

  // ---------------------------------------------------------------- what the validators accept

  /** A stripped text: no space at either end. */
  predicate Stripped(s: string) { s == "" || !(Blank(s[0]) || Blank(s[|s| - 1])) }

  /** A text the wire accepts: at most 512 characters, stripped, without U+0000. */
  predicate Plain512(s: string) { |s| < 513 && Stripped(s) && forall i | 0 <= i < |s| :: s[i] != '\0' }

  predicate ScopeId(id: Option<string>) { id.None? || (id.value != "" && 1 <= Utf8Size(id.value) < 37) }

  /** The observations the wire accepts: at least one value, bounded throughout, and no more than three hops. */
  lemma ValidObservationIff(env: Env, o: Observation)
    ensures ValidObservation(env, o) <==>
            && o.scope.tenant != "" && Utf8Size(o.scope.tenant) < 256 && ScopeId(o.scope.issuer) && ScopeId(o.scope.portfolio)
            && o.source != "" && Plain512(o.source) && (o.categorical.None? || Plain512(o.categorical.value))
            && |o.observedAt.text| < 65 && (forall i | 0 <= i < |o.observedAt.text| :: o.observedAt.text[i] != '\0')
            && env.parse(o.observedAt.text) == Some(o.observedAt)
            && (o.numeric.None? || |o.numeric.value.text| < 25)
            && o.detail.JObj? && JsonbSafe(o.detail) && Size(o.detail) < 65537
            && |o.refs| < 65 && (forall i | 0 <= i < |o.refs| :: Plain512(o.refs[i]))
            && !(o.numeric.None? && o.categorical.None? && o.detail.fields == [])
            && o.hops in {0, 1, 2, 3}
  {
    hide Size, JsonbSafe, Utf8Size, Blank;
    forall s: string ensures WireText(s) <==> Plain512(s) {
      NoNulIff(s);
    }
    NoNulIff(o.observedAt.text);
    hide WireText, Plain512;
  }

  lemma NoNulIff(s: string)
    ensures NoNul(s) <==> forall i | 0 <= i < |s| :: s[i] != '\0'
  {
  }

  /** The rules the wire accepts: `present` without a threshold, `eq` with any, and the comparisons with a number. */
  lemma ValidConfigIff(c: RuleConfig)
    ensures ValidConfig(c) <==>
            && c.kind != "" && |c.kind| < 65 && c.title != "" && |c.title| < 241 && |c.impact| < 4001
            && (c.operator == Present <==> c.threshold == NoThreshold)
            && (c.threshold.TextThreshold? ==> c.operator == Eq && c.threshold.text != "")
  {
  }

  /** The candidates the wire accepts. */
  lemma ValidCandidateIff(c: Candidate)
    ensures ValidCandidate(c) <==>
            && c.ruleVersion > 0 && IsHexKey(c.observationKey) && c.alertKey == "c3:" + c.observationKey
            && c.scope.tenant != "" && Utf8Size(c.scope.tenant) < 256 && ScopeId(c.scope.issuer) && ScopeId(c.scope.portfolio)
            && (c.issuer, c.portfolio) == (c.scope.issuer, c.scope.portfolio)
            && (c.runId.None? || |c.runId.value| < 65)
            && c.kind != "" && |c.kind| < 65 && c.title != "" && |c.title| < 241 && |c.impact| < 4001
            && c.evidence.JObj? && JsonbSafe(c.evidence) && Size(c.evidence) < 65537
            && c.authority.JObj? && JsonbSafe(c.authority) && Size(c.authority) < 65537
            && c.hops in {0, 1, 2, 3}
  {
    hide Size, JsonbSafe, Utf8Size;
  }
}
