/**
 Concrete environments and runs of the alert pipeline: a run that commits a match, a run in which two tenants' keys
 collide, and a detail that is its own omission marker.
 */
module AlertExamples {
  import opened Json
  import opened Evaluation
  import opened Materialization
  import opened Pipeline
  import opened ExactlyOnce
  import Schedule
  import Delivery

  /** Sixty-four zeros: what a hash that never distinguishes returns. */
  function Zeros(n: nat): (s: string)
    ensures |s| == n && forall i | 0 <= i < n :: s[i] == '0'
  {
    if n == 0 then "" else "0" + Zeros(n - 1)
  }

  function Constant(): Env { Env((j: Json) => Zeros(64), (s: string) => if s == "t" then Some(Stamp(0, "t")) else None) }

  function Gate(tenant: string, detail: Json): Observation {
    Observation(QaGate, SubjectScope(tenant, None, None), "s", Stamp(0, "t"), None, Some("x"), detail, [], "c", "r", 0)
  }

  function Always(ruleId: string): Version {
    Version(ruleId, 1, QaGate, Some(RuleConfig(Present, NoThreshold, "k", "t", "i")), "o", "m")
  }

  predicate Plain(c: char) { '\U{20}' <= c < '\U{80}' && c != '\"' && c != '\\' }

  lemma {:induction false} PlainSize(s: string)
    requires forall c | c in s :: Plain(c)
    ensures CharsSize(s) == |s|
  {
    if s != "" {
      assert s[0] in s;
      PlainSize(s[1..]);
    }
  }

  lemma ConstantIsSound()
    ensures Sound(Constant())
  {
    forall j ensures IsHexKey(Constant().hash(j)) {
      assert Constant().hash(j) == Zeros(64);
    }
  }

  lemma GateValid(tenant: string, detail: Json)
    requires |tenant| == 1 && detail.JObj? && JsonbSafe(detail) && Size(detail) <= 65536
    ensures ValidObservation(Constant(), Gate(tenant, detail))
  {
    assert Utf8Size(tenant) <= 4 by { assert tenant[1..] == ""; }
    hide Size, JsonbSafe;
  }

  lemma GateMatches(tenant: string, detail: Json, ruleId: string, id: string)
    ensures EvaluateRule(Constant(), Always(ruleId), Gate(tenant, detail), id).Matched?
  {
    hide Size, CharsSize, BoundedEvidence, ObservationKey;
  }

  // ---------------------------------------------------------------- a detail that is its own marker

  function OwnMarker(): Json {
    JObj([Field("canonical_bytes", JInt(114)), Field("omitted", JBool(true)), Field("sha256", JStr(Zeros(64)))])
  }

  lemma ThreeFields(a: Field, b: Field, c: Field)
    ensures Size(JObj([a, b, c])) == 7 + StrSize(a.key) + Size(a.val) + StrSize(b.key) + Size(b.val) + StrSize(c.key) + Size(c.val)
  {
    hide CharsSize, StrSize;
    var f := [a, b, c];
    assert f[1..][0] == b && f[1..][1..] == [c] && [c][1..] == [];
    assert FieldsSize([c]) == StrSize(c.key) + 1 + Size(c.val);
    assert FieldsSize(f[1..]) == StrSize(b.key) + 1 + Size(b.val) + 1 + FieldsSize([c]);
    assert FieldsSize(f) == StrSize(a.key) + 1 + Size(a.val) + 1 + FieldsSize(f[1..]);
  }

  lemma MarkerKeySizes()
    ensures StrSize("canonical_bytes") == 17 && StrSize("omitted") == 9 && StrSize("sha256") == 8 && StrSize(Zeros(64)) == 66
  {
    hide CharsSize;
    PlainSize("canonical_bytes");
    PlainSize("omitted");
    PlainSize("sha256");
    PlainSize(Zeros(64));
  }

  lemma OwnMarkerSize()
    ensures Size(OwnMarker()) == 114
  {
    hide StrSize;
    MarkerKeySizes();
    assert Size(JInt(114)) == 3 && Size(JBool(true)) == 4 && Size(JStr(Zeros(64))) == 66;
    ThreeFields(Field("canonical_bytes", JInt(114)), Field("omitted", JBool(true)), Field("sha256", JStr(Zeros(64))));
  }

  lemma OwnMarkerIsItsMarker()
    ensures OmissionMarker(Constant(), OwnMarker()) == OwnMarker() && OwnMarker().JObj?
  {
    hide Size;
    OwnMarkerSize();
  }

  lemma OwnMarkerSafe()
    ensures JsonbSafe(OwnMarker())
  {
    hide OwnMarker, OmissionMarker, JsonbSafe, Sound;
    ConstantIsSound();
    OwnMarkerIsItsMarker();
    MarkersJsonbSafe(Constant(), OwnMarker(), 0);
  }

  lemma OwnMarkerValid()
    ensures ValidObservation(Constant(), Gate("a", OwnMarker())) && ShapeOf(Constant(), Gate("a", OwnMarker())).Full?
  {
    hide OwnMarker, Size, JsonbSafe, ValidObservation, ShapeOf, Sound, Constant;
    OwnMarkerSize();
    OwnMarkerIsItsMarker();
    OwnMarkerSafe();
    ConstantIsSound();
    GateValid("a", OwnMarker());
    SmallDetailIsFull(Constant(), Gate("a", OwnMarker()));
  }

  /** A small detail without references is attached whole. */
  lemma SmallDetailIsFull(env: Env, o: Observation)
    requires Sound(env) && ValidObservation(env, o) && o.refs == [] && Size(o.detail) <= 50000
    ensures ShapeOf(env, o).Full?
  {
    hide Size, CharsSize, ToJson, ValidObservation, Sound, Overhead;
    EmptyListSize();
    assert RefList(o) == JArr([]);
    FixedPartSmall(env, o);
    EvidenceSize(FullEvidence(o));
  }

  lemma EmptyListSize()
    ensures Size(JArr([])) == 2 && Size(JObj([])) == 2
  {
  }

  /** The observation is valid and matched in full shape, and the materializer refuses the candidate of the match. */
  lemma OwnMarkerRefused(ruleId: string, id: string)
    ensures
      var (env, o, v) := (Constant(), Gate("a", OwnMarker()), Always(ruleId));
      var d := EvaluateRule(env, v, o, id);
      && ValidObservation(env, o) && ShapeOf(env, o).Full? && SelfReferential(env, o.detail)
      && d.Matched? && !CandidateMatches(env, StoredEvaluation(env, v, o, id), v, d.candidate)
  {
    hide OwnMarker, Constant, ValidObservation, EvaluateRule, CandidateMatches, ShapeOf, OmissionMarker, Sound;
    var (env, o, v) := (Constant(), Gate("a", OwnMarker()), Always(ruleId));
    OwnMarkerValid();
    OwnMarkerIsItsMarker();
    ConstantIsSound();
    GateMatches("a", OwnMarker(), ruleId, id);
    assert StoredEvaluation(env, v, o, id).id == id;
    hide StoredEvaluation;
    CheckerAcceptsProducer(env, v, o, StoredEvaluation(env, v, o, id));
  }

  // ---------------------------------------------------------------- a run that commits a match

  function Sample(tenant: string): Schedule.Rule {
    Schedule.Rule(tenant, None, None, QaGate, 1, true, false, Schedule.EventDriven, None, None, None, None, None, 0, None)
  }

  function Ids(p: string): Fresh { Fresh(p + "e", p + "v", p + "x", [p + "i", p + "j"]) }

  function Creation(tenant: string, ruleId: string): Action { CreateRule(ruleId, Sample(tenant), Always(ruleId)) }

  function Firing(tenant: string, ruleId: string, p: string): Action {
    CompletedRunEvaluation(ruleId, 1, Gate(tenant, JObj([])), Ids(p), 0, true)
  }

  /** A rule identifier of the right length. */
  function RuleId(c: char): (s: string)
    ensures |s| == 36 && s[0] == c && (c != '\0' ==> NoNul(s))
  {
    [c] + Zeros(35)
  }

  /** The rule is there, active, and nothing of its tenant is recorded. */
  ghost predicate Armed(t: Tables, tenant: string, ruleId: string) {
    && ruleId in t.rules && t.rules[ruleId] == Sample(tenant)
    && (ruleId, 1) in t.versions && t.versions[(ruleId, 1)] == Always(ruleId)
    && forall e | e in t.evaluations :: t.evaluations[e].tenant != tenant
  }

  lemma CreationArms(t: Tables, tenant: string, ruleId: string)
    requires |ruleId| == 36 && NoNul(ruleId) && ruleId !in t.rules && (ruleId, 1) !in t.versions
    requires forall e | e in t.evaluations :: t.evaluations[e].tenant != tenant
    ensures
      var after := Act(Constant(), t, Creation(tenant, ruleId));
      && Armed(after, tenant, ruleId) && after.evaluations == t.evaluations && after.events == t.events && after.contexts == t.contexts
      && after.intents == t.intents && after.rules == t.rules[ruleId := Sample(tenant)]
      && after.versions == t.versions[(ruleId, 1) := Always(ruleId)]
  {
    assert Schedule.NewRule(Sample(tenant));
    assert NewVersion(t, ruleId, 1, Always(ruleId));
  }

  /** An armed rule claims its observation as a new row. */
  lemma ArmedClaims(t: Tables, tenant: string, ruleId: string, id: string)
    requires Armed(t, tenant, ruleId) && |tenant| == 1
    ensures
      var o := Gate(tenant, JObj([]));
      var claim := ClaimEvaluation(Constant(), t, TriggerFor(o, ruleId, 1), o, id);
      claim.Ok? && claim.value.2
  {
    var o := Gate(tenant, JObj([]));
    EmptyListSize();
    GateValid(tenant, JObj([]));
    hide ValidObservation, ObservationKey, ObservedRow;
    assert FindEvaluation(t, tenant, ObservationKey(Constant(), Always(ruleId), o)).None?;
  }

  lemma EmptyDetail(tenant: string, ruleId: string, id: string)
    ensures
      var o := Gate(tenant, JObj([]));
      !SelfReferential(Constant(), o.detail) && EvaluateRule(Constant(), Always(ruleId), o, id).candidate.runId.None?
  {
    GateMatches(tenant, JObj([]), ruleId, id);
    hide Size, CharsSize, BoundedEvidence, ObservationKey;
  }

  /** Firing an armed rule: a match is recorded, or refused because the key is taken. */
  lemma FiringMatches(t: Tables, tenant: string, ruleId: string, p: string)
    requires Settled(Constant(), t) && Armed(t, tenant, ruleId) && |tenant| == 1 && FreshFor(t, Ids(p))
    ensures
      var o := Gate(tenant, JObj([]));
      var r := Evaluate(Constant(), t, TriggerFor(o, ruleId, 1), o, Ids(p), 0, true);
      if Taken(t.evaluations, ObservationKey(Constant(), Always(ruleId), o)) then r.Err? && Collides(r.failure)
      else r.Ok? && r.value.1 == WasMatched && Recorded(Constant(), r.value.0, Always(ruleId), o, WasMatched)
  {
    hide Settled, Evaluate, EvaluateRule, FreshFor, Taken, ObservationKey, ClaimEvaluation, Recorded, ShapeOf, SelfReferential, KeyedBy,
         Armed, Constant, Always, Ids, Preserves, Sound, Collides;
    var (env, o, v) := (Constant(), Gate(tenant, JObj([])), Always(ruleId));
    ConstantIsSound();
    ArmedClaims(t, tenant, ruleId, Ids(p).evaluation);
    ArmedVersion(t, tenant, ruleId);
    GateMatches(tenant, JObj([]), ruleId, Ids(p).evaluation);
    EmptyDetail(tenant, ruleId, Ids(p).evaluation);
    CreatedOutcome(env, t, TriggerFor(o, ruleId, 1), o, Ids(p), 0, true);
    CreatedCase(env, t, TriggerFor(o, ruleId, 1), o, Ids(p), 0, true);
  }

  lemma ArmedVersion(t: Tables, tenant: string, ruleId: string)
    requires Armed(t, tenant, ruleId)
    ensures (ruleId, 1) in t.versions && t.versions[(ruleId, 1)] == Always(ruleId)
  {
  }

  /** What a committed match leaves in use: the identifiers it was given, and no others. */
  lemma FiringUses(t: Tables, tenant: string, ruleId: string, p: string)
    requires Settled(Constant(), t) && Armed(t, tenant, ruleId) && |tenant| == 1 && FreshFor(t, Ids(p))
    requires !Taken(t.evaluations, ObservationKey(Constant(), Always(ruleId), Gate(tenant, JObj([]))))
    ensures
      var after := Act(Constant(), t, Firing(tenant, ruleId, p));
      && after.rules == t.rules && after.versions == t.versions
      && after.evaluations.Keys == t.evaluations.Keys + {Ids(p).evaluation} && after.events.Keys == t.events.Keys + {Ids(p).event}
      && after.contexts.Keys == t.contexts.Keys + {Ids(p).context} && after.intents.Keys == t.intents.Keys + {p + "i", p + "j"}
      && after.evaluations[Ids(p).evaluation].tenant == tenant && after.evaluations[Ids(p).evaluation].outcome == WasMatched
      && after.evaluations[Ids(p).evaluation].key == Zeros(64)
  {
    hide StoredEvaluation, Evaluate, EvaluateRule, Settled, Taken, ContextPayload, CharsSize, Act, FreshFor, Armed, Zeros, FreshEffect, ObservationKey;
    FiringEffect(t, tenant, ruleId, p);
    StoredZero(tenant, ruleId, p);
    GateMatches(tenant, JObj([]), ruleId, Ids(p).evaluation);
    var o := Gate(tenant, JObj([]));
    var row := StoredEvaluation(Constant(), Always(ruleId), o, Ids(p).evaluation);
    var c := EvaluateRule(Constant(), Always(ruleId), o, Ids(p).evaluation).candidate;
    EffectKeys(t, Act(Constant(), t, Firing(tenant, ruleId, p)), row, c, Ids(p));
  }

  lemma StoredZero(tenant: string, ruleId: string, p: string)
    ensures
      var row := StoredEvaluation(Constant(), Always(ruleId), Gate(tenant, JObj([])), Ids(p).evaluation);
      row.key == Zeros(64) && row.tenant == tenant && row.id == Ids(p).evaluation
  {
    hide Zeros;
  }

  lemma TwoMore(intents: map<string, Delivery.Intent>, after: map<string, Delivery.Intent>, ids: seq<string>)
    requires |ids| == 2 && (forall i | i in intents :: i in after) && (forall k | 0 <= k < 2 :: ids[k] in after)
    requires forall i | i in after :: i in intents || exists k :: 0 <= k < 2 && i == ids[k]
    ensures after.Keys == intents.Keys + {ids[0], ids[1]}
  {
    assert ids[0] in after && ids[1] in after;
  }

  lemma EffectKeys(t: Tables, after: Tables, row: EvaluationRow, c: Candidate, ids: Fresh)
    requires |ids.intents| == |SINKS| && row.id == ids.evaluation
    requires FreshEffect(t.(evaluations := t.evaluations[row.id := row]), after, row, c, ids, 0)
    ensures after.rules == t.rules && after.versions == t.versions
    ensures after.evaluations == t.evaluations[row.id := row.(outcome := WasMatched)] && after.events.Keys == t.events.Keys + {ids.event}
    ensures after.contexts.Keys == t.contexts.Keys + {ids.context}
    ensures after.intents.Keys == t.intents.Keys + {ids.intents[0], ids.intents[1]}
  {
    hide ContextFor, IntentFor, EventFor;
    TwoMore(t.intents, after.intents, ids.intents);
  }

  lemma FiringEffect(t: Tables, tenant: string, ruleId: string, p: string)
    requires Settled(Constant(), t) && Armed(t, tenant, ruleId) && |tenant| == 1 && FreshFor(t, Ids(p))
    requires !Taken(t.evaluations, ObservationKey(Constant(), Always(ruleId), Gate(tenant, JObj([]))))
    ensures
      var o := Gate(tenant, JObj([]));
      var row := StoredEvaluation(Constant(), Always(ruleId), o, Ids(p).evaluation);
      FreshEffect(t.(evaluations := t.evaluations[row.id := row]), Act(Constant(), t, Firing(tenant, ruleId, p)), row,
                  EvaluateRule(Constant(), Always(ruleId), o, Ids(p).evaluation).candidate, Ids(p), 0)
  {
    hide Settled, Evaluate, EvaluateRule, FreshFor, Taken, ObservationKey, ClaimEvaluation, ShapeOf, SelfReferential, Armed, Constant, Always,
         Ids, Sound, Collides, FreshEffect, StoredEvaluation;
    ConstantIsSound();
    var o := Gate(tenant, JObj([]));
    ArmedClaims(t, tenant, ruleId, Ids(p).evaluation);
    ArmedVersion(t, tenant, ruleId);
    GateMatches(tenant, JObj([]), ruleId, Ids(p).evaluation);
    EmptyDetail(tenant, ruleId, Ids(p).evaluation);
    CreatedOutcome(Constant(), t, TriggerFor(o, ruleId, 1), o, Ids(p), 0, true);
  }

  /** A first tenant's rule and firing, then a second tenant's rule. */
  function Script(): seq<Action> { [Creation("a", RuleId('a')), Firing("a", RuleId('a'), "1"), Creation("b", RuleId('b'))] }

  ghost function After1(): Tables { Act(Constant(), NO_TABLES, Creation("a", RuleId('a'))) }

  ghost function After2(): Tables { Act(Constant(), After1(), Firing("a", RuleId('a'), "1")) }

  ghost function After3(): Tables { Act(Constant(), After2(), Creation("b", RuleId('b'))) }

  lemma EmptySettled()
    ensures Settled(Constant(), NO_TABLES)
  {
  }

  /** Identifiers with an unused prefix are new. */
  lemma Unused(t: Tables, p: string)
    requires p + "e" !in t.evaluations && p + "v" !in t.events && p + "x" !in t.contexts && p + "i" !in t.intents && p + "j" !in t.intents
    ensures FreshFor(t, Ids(p))
  {
    assert (p + "i")[|p|] != (p + "j")[|p|];
  }

  lemma FirstSteps()
    ensures Settled(Constant(), After1()) && Armed(After1(), "a", RuleId('a')) && FreshFor(After1(), Ids("1"))
    ensures After1().evaluations == map[] && After1().events == map[] && After1().contexts == map[] && After1().intents == map[]
    ensures After1().rules.Keys == {RuleId('a')} && After1().versions.Keys == {(RuleId('a'), 1)}
  {
    hide Settled, Act, Creation, Armed, RuleId, Ids, FreshFor, Sound, Preserves, Zeros;
    EmptySettled();
    ConstantIsSound();
    CreationArms(NO_TABLES, "a", RuleId('a'));
    AlwaysEnabled(NO_TABLES, "a", RuleId('a'));
    ActionSettles(Constant(), NO_TABLES, Creation("a", RuleId('a')));
    Unused(After1(), "1");
  }

  lemma AlwaysEnabled(t: Tables, tenant: string, ruleId: string)
    ensures Enabled(t, Creation(tenant, ruleId))
  {
  }

  lemma NothingTaken(t: Tables, key: string)
    requires t.evaluations == map[]
    ensures !Taken(t.evaluations, key)
  {
  }

  lemma SecondStep()
    ensures Settled(Constant(), After2()) && After2().rules == After1().rules && After2().versions == After1().versions
    ensures After2().evaluations.Keys == {"1e"} && After2().events.Keys == {"1v"} && After2().contexts.Keys == {"1x"}
    ensures After2().intents.Keys == {"1i", "1j"} && After2().evaluations["1e"].tenant == "a"
    ensures After2().evaluations["1e"].outcome == WasMatched && After2().evaluations["1e"].key == Zeros(64)
  {
    hide Settled, Act, Creation, Firing, Armed, RuleId, FreshFor, Sound, Preserves, Zeros, Taken, After1, ObservationKey;
    FirstSteps();
    ConstantIsSound();
    NothingTaken(After1(), ObservationKey(Constant(), Always(RuleId('a')), Gate("a", JObj([]))));
    FiringUses(After1(), "a", RuleId('a'), "1");
    assert "1" + "e" == "1e" && "1" + "v" == "1v" && "1" + "x" == "1x" && "1" + "i" == "1i" && "1" + "j" == "1j";
    FiringEnabled(After1(), "a", RuleId('a'), "1");
    ActionSettles(Constant(), After1(), Firing("a", RuleId('a'), "1"));
  }

  lemma FiringEnabled(t: Tables, tenant: string, ruleId: string, p: string)
    requires FreshFor(t, Ids(p))
    ensures Enabled(t, Firing(tenant, ruleId, p))
  {
  }

  lemma ThirdStep()
    ensures Settled(Constant(), After3()) && Armed(After3(), "b", RuleId('b')) && FreshFor(After3(), Ids("2"))
    ensures After3().evaluations == After2().evaluations
  {
    hide Settled, Act, Creation, Firing, Armed, FreshFor, Sound, Preserves, Zeros, After1, After2, Ids;
    FirstSteps();
    SecondStep();
    ConstantIsSound();
    assert RuleId('a')[0] != RuleId('b')[0];
    CreationArms(After2(), "b", RuleId('b'));
    AlwaysEnabled(After2(), "b", RuleId('b'));
    ActionSettles(Constant(), After2(), Creation("b", RuleId('b')));
    assert "1e"[0] != "2e"[0] && "1v"[0] != "2v"[0] && "1x"[0] != "2x"[0] && "1i"[0] != "2i"[0] && "1j"[0] != "2j"[0]
           && "1i"[0] != "2j"[0] && "1j"[0] != "2i"[0];
    Unused(After3(), "2");
  }

  /**
   A run from empty tables commits a match, so the results over runs speak of something; and with a hash that never
   distinguishes, the next tenant's match is refused.
   */
  lemma MatchCommitsAndTwinCollides()
    ensures Sound(Constant()) && AllEnabled(Constant(), NO_TABLES, Script())
    ensures
      var t := Run(Constant(), NO_TABLES, Script());
      var o := Gate("b", JObj([]));
      var r := Evaluate(Constant(), t, TriggerFor(o, RuleId('b'), 1), o, Ids("2"), 0, true);
      && FreshFor(t, Ids("2"))
      && "1e" in t.evaluations && t.evaluations["1e"].outcome == WasMatched
      && r.Err? && Collides(r.failure)
  {
    hide Settled, Act, Evaluate, Creation, Firing, Armed, FreshFor, Sound, Preserves, Zeros, After1, After2, Ids, RuleId, Enabled, Collides, ObservationKey;
    ScriptRuns();
    ThirdStep();
    SecondStep();
    var o := Gate("b", JObj([]));
    StoredZero("b", RuleId('b'), "2");
    assert Taken(After3().evaluations, Zeros(64)) by { assert "1e" in After3().evaluations; }
    StoredKey(Constant(), Always(RuleId('b')), o, Ids("2").evaluation);
    FiringMatches(After3(), "b", RuleId('b'), "2");
  }

  lemma ScriptRuns()
    ensures Sound(Constant()) && AllEnabled(Constant(), NO_TABLES, Script()) && Run(Constant(), NO_TABLES, Script()) == After3()
  {
    hide Settled, Act, Creation, Firing, Armed, FreshFor, Sound, Preserves, Zeros, Ids, RuleId, Enabled;
    ConstantIsSound();
    FirstSteps();
    SecondStep();
    AlwaysEnabled(NO_TABLES, "a", RuleId('a'));
    FiringEnabled(After1(), "a", RuleId('a'), "1");
    AlwaysEnabled(After2(), "b", RuleId('b'));
    var s := Script();
    assert s[1..] == [s[1], s[2]] && s[1..][1..] == [s[2]] && s[1..][1..][1..] == [];
    assert AllEnabled(Constant(), After3(), []);
    assert AllEnabled(Constant(), After2(), s[1..][1..]);
    assert AllEnabled(Constant(), After1(), s[1..]);
  }
}
