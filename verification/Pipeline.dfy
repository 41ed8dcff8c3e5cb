/**
 The alert pipeline as a whole: claims of observations, materialization and the two triggers over the shared
 tables (alert_evaluation.py, alert_dispatch.py, alert_triggers.py). A transaction is one atomic step that either
 commits its whole effect or rolls back; a crash is a step that did not happen.
 */
module Pipeline {
  import opened Json
  import opened Evaluation
  import opened Materialization
  import Schedule
  import Delivery

  /** A c3 row of alert_events. */
  datatype Event = Event(
    alertKey: string, contextId: Option<string>, issuer: Option<string>, runId: Option<string>, kind: string, title: string,
    impact: string, evidence: Json, authority: Json, createdBy: string)

  /** A row of alert_event_contexts. */
  datatype Context = Context(
    ownership: Delivery.Ownership, eventId: string, evaluationId: string, ruleId: string, ruleVersion: int, signal: Signal,
    root: string, hops: int, payload: Json)

  datatype Sink = Sink(channel: Delivery.Channel, destination: string, max: int)

  /** The approved trigger sinks, in the order the materializer sorts them. */
  const SINKS: seq<Sink> := [Sink(Delivery.Email, "owner-email-route", 5), Sink(Delivery.InApp, "monitor-inbox", 3)]

  datatype Tables = Tables(
    rules: map<string, Schedule.Rule>, versions: map<(string, int), Version>, evaluations: map<string, EvaluationRow>,
    events: map<string, Event>, contexts: map<string, Context>, intents: map<string, Delivery.Intent>)

  datatype Failure =
    | ClaimRejected(reason: string) | InvalidCandidate | CandidateMismatch | RunScopeRejected
    | EventCollision | ContextCollision | IntentCollision
    | IncompleteEvaluation | MissingContext | VersionVanished | LeaseLost

  datatype Result<+T> = Ok(value: T) | Err(failure: Failure)

  /** Identifiers uuid4 returns inside one transaction. */
  datatype Fresh = Fresh(evaluation: string, event: string, context: string, intents: seq<string>)

  datatype Trigger = Trigger(identity: string, ruleId: string, ruleVersion: int, correlation: string, root: string, hops: int)

  function TriggerFor(o: Observation, ruleId: string, ruleVersion: int): Trigger {
    Trigger(o.source, ruleId, ruleVersion, o.correlation, o.root, o.hops)
  }

  // ---------------------------------------------------------------- claim

  /** The reasons `_validate_claim` rejects, in its order. */
  function ClaimProblem(r: Schedule.Rule, v: Version, tr: Trigger, o: Observation): Option<string> {
    if !r.enabled || r.paused then Some("watch_rule_inactive")
    else if r.version < tr.ruleVersion then Some("rule_version_unavailable")
    else if v.signal != o.signal then Some("signal_mismatch")
    else if r.tenant != o.scope.tenant || r.issuer != o.scope.issuer || r.portfolio != o.scope.portfolio then Some("subject_scope_mismatch")
    else if tr.identity != o.source then Some("trigger_identity_mismatch")
    else if tr.correlation != o.correlation then Some("correlation_mismatch")
    else if tr.root != o.root then Some("correlation_root_mismatch")
    else if tr.hops != o.hops then Some("hop_mismatch")
    else None
  }

  ghost predicate KeyedBy(t: Tables, id: string, tenant: string, key: string) {
    id in t.evaluations && t.evaluations[id].tenant == tenant && t.evaluations[id].key == key
  }

  ghost function FindEvaluation(t: Tables, tenant: string, key: string): Option<string> {
    if exists id :: KeyedBy(t, id, tenant, key) then
      var id :| KeyedBy(t, id, tenant, key); Some(id)
    else None
  }

  /** The observed row a claim inserts. */
  function ObservedRow(env: Env, r: Schedule.Rule, v: Version, o: Observation, id: string): EvaluationRow {
    EvaluationRow(id, r.tenant, v.owner, v.team, r.issuer, r.portfolio, v.ruleId, v.version, v.signal, o.scope, o.source,
                  ObservationKey(env, v, o), Observed, o.correlation, o.root, o.hops, o.observedAt.utc, o.detail)
  }

  /** `claim_rule_evaluation`: the new tables, the evaluation's id and whether it was created here. */
  ghost function ClaimEvaluation(env: Env, t: Tables, tr: Trigger, o: Observation, id: string): Result<(Tables, string, bool)> {
    if !ValidObservation(env, o) then Err(ClaimRejected("invalid_observation"))
    else if tr.ruleId !in t.rules || (tr.ruleId, tr.ruleVersion) !in t.versions || t.rules[tr.ruleId].tenant != o.scope.tenant then
      Err(ClaimRejected("watch_rule_not_found"))
    else
      var (r, v) := (t.rules[tr.ruleId], t.versions[(tr.ruleId, tr.ruleVersion)]);
      var problem := ClaimProblem(r, v, tr, o);
      if problem.Some? then Err(ClaimRejected(problem.value))
      else
        match FindEvaluation(t, r.tenant, ObservationKey(env, v, o))
        case Some(existing) => Ok((t, existing, false))
        case None => Ok((t.(evaluations := t.evaluations[id := ObservedRow(env, r, v, o, id)]), id, true))
  }

  /** The trigger's rule and version are stored, for the observation's tenant. */
  predicate Stored(t: Tables, tr: Trigger, o: Observation) {
    tr.ruleId in t.rules && (tr.ruleId, tr.ruleVersion) in t.versions && t.rules[tr.ruleId].tenant == o.scope.tenant
  }

  /** The rule may be evaluated now, in this version and on this signal, and watches the observation's subject. */
  predicate Watches(t: Tables, ruleId: string, version: int, o: Observation)
    requires ruleId in t.rules && (ruleId, version) in t.versions
  {
    var (r, v) := (t.rules[ruleId], t.versions[(ruleId, version)]);
    && r.enabled && !r.paused && version <= r.version && v.signal == o.signal
    && r.tenant == o.scope.tenant && r.issuer == o.scope.issuer && r.portfolio == o.scope.portfolio
  }

  /** The trigger speaks of this very observation. */
  predicate Announces(tr: Trigger, o: Observation) {
    tr.identity == o.source && tr.correlation == o.correlation && tr.root == o.root && tr.hops == o.hops
  }

  /** When a claim is accepted: for an active rule that watches the observation, under a trigger that speaks of it. */
  lemma ClaimAcceptedIff(env: Env, t: Tables, tr: Trigger, o: Observation, id: string)
    ensures ClaimEvaluation(env, t, tr, o, id).Ok? <==>
            ValidObservation(env, o) && Stored(t, tr, o) && Watches(t, tr.ruleId, tr.ruleVersion, o) && Announces(tr, o)
  {
    hide ValidObservation, ObservationKey, ObservedRow;
  }

  /** What each refusal of a claim says is so. */
  lemma ClaimRefusals(env: Env, t: Tables, tr: Trigger, o: Observation, id: string)
    requires ClaimEvaluation(env, t, tr, o, id).Err?
    ensures
      var f := ClaimEvaluation(env, t, tr, o, id).failure;
      && (f == ClaimRejected("invalid_observation") <==> !ValidObservation(env, o))
      && (f == ClaimRejected("watch_rule_not_found") <==> ValidObservation(env, o) && !Stored(t, tr, o))
      && (ValidObservation(env, o) && Stored(t, tr, o) ==>
            var (r, v) := (t.rules[tr.ruleId], t.versions[(tr.ruleId, tr.ruleVersion)]);
            && (f == ClaimRejected("watch_rule_inactive") <==> !r.enabled || r.paused)
            && (f == ClaimRejected("rule_version_unavailable") ==> tr.ruleVersion > r.version)
            && (f == ClaimRejected("signal_mismatch") ==> v.signal != o.signal)
            && (f == ClaimRejected("subject_scope_mismatch") ==> r.issuer != o.scope.issuer || r.portfolio != o.scope.portfolio)
            && (f == ClaimRejected("trigger_identity_mismatch") ==> tr.identity != o.source)
            && (f == ClaimRejected("correlation_mismatch") ==> tr.correlation != o.correlation)
            && (f == ClaimRejected("correlation_root_mismatch") ==> tr.root != o.root)
            && (f == ClaimRejected("hop_mismatch") ==> Watches(t, tr.ruleId, tr.ruleVersion, o) && tr.hops != o.hops))
  {
    hide ValidObservation, ObservationKey, ObservedRow;
  }

  /** What a claim leaves: the row of its key where the tenant has one, and otherwise one new row of the observation. */
  lemma ClaimLeaves(env: Env, t: Tables, tr: Trigger, o: Observation, id: string)
    requires ClaimEvaluation(env, t, tr, o, id).Ok?
    ensures
      var ((after, e, created), v) := (ClaimEvaluation(env, t, tr, o, id).value, t.versions[(tr.ruleId, tr.ruleVersion)]);
      && e in after.evaluations && after.evaluations[e].tenant == o.scope.tenant
      && after.evaluations[e].key == ObservationKey(env, v, o)
      && (!created ==> after == t)
      && (created ==>
            && e == id && after == t.(evaluations := after.evaluations)
            && after.evaluations == t.evaluations[id := after.evaluations[id]]
            && (forall other | other in t.evaluations :: t.evaluations[other].tenant == o.scope.tenant ==>
                  t.evaluations[other].key != ObservationKey(env, v, o))
            && IsObservation(after.evaluations[id], v, o) && after.evaluations[id].id == id)
  {
    hide ValidObservation, ObservationKey;
    if ClaimEvaluation(env, t, tr, o, id).value.2 {
      var key := ObservationKey(env, t.versions[(tr.ruleId, tr.ruleVersion)], o);
      forall other | other in t.evaluations && t.evaluations[other].tenant == o.scope.tenant ensures t.evaluations[other].key != key {
        assert !KeyedBy(t, other, o.scope.tenant, key);
      }
    }
  }

  /** The row of an observation not evaluated yet: the columns of its version and of the observation. */
  predicate IsObservation(row: EvaluationRow, v: Version, o: Observation) {
    && (row.owner, row.team, row.ruleId, row.ruleVersion) == (v.owner, v.team, v.ruleId, v.version)
    && (row.scope, row.tenant, row.issuer, row.portfolio) == (o.scope, o.scope.tenant, o.scope.issuer, o.scope.portfolio)
    && (row.signal, row.source, row.detail, row.evaluatedAt) == (o.signal, o.source, o.detail, o.observedAt.utc)
    && (row.correlation, row.root, row.hops) == (o.correlation, o.root, o.hops)
    && row.outcome == Observed
  }

  // ---------------------------------------------------------------- materialize

  function OwnershipOf(ev: EvaluationRow): Delivery.Ownership {
    Delivery.Ownership(ev.tenant, ev.owner, ev.team, ev.issuer, ev.portfolio)
  }

  function EventFor(c: Candidate, createdBy: string): Event {
    Event(c.alertKey, None, c.issuer, c.runId, c.kind, c.title, c.impact, c.evidence, c.authority, createdBy)
  }

  function ContextPayload(c: Candidate): Json {
    JObj([Field("correlation_id", JStr(c.correlation)), Field("observation_key", JStr(c.observationKey)),
          Field("subject_scope", ScopeJson(c.scope))])
  }

  function ContextFor(ev: EvaluationRow, c: Candidate, eventId: string): Context {
    Context(OwnershipOf(ev), eventId, ev.id, ev.ruleId, ev.ruleVersion, ev.signal, ev.root, ev.hops, ContextPayload(c))
  }

  /** What `_context_matches` compares: the root and the hops against the candidate. */
  predicate ContextMatches(x: Context, eventId: string, ev: EvaluationRow, c: Candidate) {
    x == ContextFor(ev, c, eventId).(root := c.root, hops := c.hops)
  }

  function IntentFor(ev: EvaluationRow, contextId: string, eventId: string, s: Sink, now: int): Delivery.Intent {
    Delivery.NewIntent(OwnershipOf(ev), contextId, eventId, s.channel, s.destination, s.max, ev.root, now)
  }

  predicate IntentMatches(i: Delivery.Intent, x: Context, contextId: string, ev: EvaluationRow, s: Sink) {
    && i.ownership == OwnershipOf(ev) && i.eventId == x.eventId && i.contextId == contextId
    && i.channel == s.channel && i.destination == s.destination && i.max == s.max && i.root == x.root
  }

  ghost function FindEvent(events: map<string, Event>, alertKey: string): Option<string> {
    if exists id :: id in events && events[id].alertKey == alertKey then
      var id :| id in events && events[id].alertKey == alertKey; Some(id)
    else None
  }

  ghost function FindContext(contexts: map<string, Context>, eventId: string): Option<string> {
    if exists id :: id in contexts && contexts[id].eventId == eventId then
      var id :| id in contexts && contexts[id].eventId == eventId; Some(id)
    else None
  }

  predicate Addressed(intents: map<string, Delivery.Intent>, id: string, contextId: string, s: Sink) {
    id in intents && intents[id].contextId == contextId && intents[id].channel == s.channel && intents[id].destination == s.destination
  }

  ghost function FindIntent(intents: map<string, Delivery.Intent>, contextId: string, s: Sink): Option<string> {
    if exists id :: Addressed(intents, id, contextId, s) then
      var id :| Addressed(intents, id, contextId, s); Some(id)
    else None
  }

  /** Insert, or leave the row that conflicts on a unique column. */
  ghost function UpsertEvent(events: map<string, Event>, id: string, e: Event): map<string, Event> {
    if FindEvent(events, e.alertKey).Some? then events else events[id := e]
  }

  ghost function UpsertContext(contexts: map<string, Context>, id: string, x: Context): map<string, Context> {
    if exists other :: other in contexts && (contexts[other].eventId == x.eventId || contexts[other].evaluationId == x.evaluationId) then contexts
    else contexts[id := x]
  }

  ghost function UpsertIntent(intents: map<string, Delivery.Intent>, id: string, i: Delivery.Intent, s: Sink): map<string, Delivery.Intent> {
    if FindIntent(intents, i.contextId, s).Some? then intents else intents[id := i]
  }

  /** The loop over the sinks; None when some destination's row belongs to something else. */
  ghost function InsertIntents(intents: map<string, Delivery.Intent>, ids: seq<string>, sinks: seq<Sink>, ev: EvaluationRow,
                               x: Context, contextId: string, now: int): Option<map<string, Delivery.Intent>>
    requires |ids| == |sinks|
    decreases |sinks|
  {
    if sinks == [] then Some(intents)
    else
      var s := sinks[0];
      var after := UpsertIntent(intents, ids[0], IntentFor(ev, contextId, x.eventId, s, now), s);
      match FindIntent(after, contextId, s)
      case None => None
      case Some(id) =>
        if IntentMatches(after[id], x, contextId, ev, s) then InsertIntents(after, ids[1..], sinks[1..], ev, x, contextId, now)
        else None
  }

  /** `materialize_alert` for the approved sinks; `scopeOk` is the verdict of the run-scope query. */
  ghost function Materialize(env: Env, t: Tables, c: Candidate, ids: Fresh, now: int, scopeOk: bool): Result<Tables>
    requires |ids.intents| == |SINKS|
  {
    if !ValidCandidate(c) then Err(InvalidCandidate)
    else if c.evaluationId !in t.evaluations
            || (t.evaluations[c.evaluationId].ruleId, t.evaluations[c.evaluationId].ruleVersion) !in t.versions then Err(CandidateMismatch)
    else
      var ev := t.evaluations[c.evaluationId];
      if !CandidateMatches(env, ev, t.versions[(ev.ruleId, ev.ruleVersion)], c) then Err(CandidateMismatch)
      else if c.runId.Some? && !scopeOk then Err(RunScopeRejected)
      else
        var matched := ev.(outcome := WasMatched);
        var events := UpsertEvent(t.events, ids.event, EventFor(c, ev.owner));
        var event := FindEvent(events, c.alertKey);
        if event.None? || events[event.value] != EventFor(c, ev.owner) then Err(EventCollision)
        else
          var contexts := UpsertContext(t.contexts, ids.context, ContextFor(matched, c, event.value));
          var context := FindContext(contexts, event.value);
          if context.None? || !ContextMatches(contexts[context.value], event.value, matched, c) then Err(ContextCollision)
          else
            match InsertIntents(t.intents, ids.intents, SINKS, matched, contexts[context.value], context.value, now)
            case None => Err(IntentCollision)
            case Some(intents) =>
              Ok(t.(evaluations := t.evaluations[c.evaluationId := matched], events := events, contexts := contexts, intents := intents))
  }

  function OutcomeOf(d: Decision): Outcome {
    match d case Matched(_) => WasMatched case Ignored => WasIgnored case Rejected(_) => WasRejected
  }

  /** The body both triggers share: claim the observation, then replay the recorded outcome or evaluate and record it. */
  ghost function Evaluate(env: Env, t: Tables, tr: Trigger, o: Observation, ids: Fresh, now: int, scopeOk: bool): Result<(Tables, Outcome)>
    requires |ids.intents| == |SINKS|
  {
    match ClaimEvaluation(env, t, tr, o, ids.evaluation)
    case Err(f) => Err(f)
    case Ok((t1, id, created)) =>
      if id !in t1.evaluations then Err(VersionVanished)
      else if !created then
        var outcome := t1.evaluations[id].outcome;
        if outcome.Observed? then Err(IncompleteEvaluation)
        else if outcome.WasMatched? && !(exists x :: x in t1.contexts && t1.contexts[x].evaluationId == id) then Err(MissingContext)
        else Ok((t1, outcome))
      else if (tr.ruleId, tr.ruleVersion) !in t1.versions then Err(VersionVanished)
      else
        match EvaluateRule(env, t1.versions[(tr.ruleId, tr.ruleVersion)], o, id)
        case Matched(c) =>
          (match Materialize(env, t1, c, ids, now, scopeOk)
           case Err(f) => Err(f)
           case Ok(t2) => Ok((t2, WasMatched)))
        case d => Ok((t1.(evaluations := t1.evaluations[id := t1.evaluations[id].(outcome := OutcomeOf(d))]), OutcomeOf(d)))
  }

  predicate Holds(t: Tables, c: Schedule.Claim, now: int) {
    c.ruleId in t.rules && Schedule.Owns(t.rules[c.ruleId], c, now)
  }

  /** The evaluation transaction of a scheduled rule, fenced by its lease before and after. */
  ghost function EvaluateScheduled(env: Env, t: Tables, c: Schedule.Claim, o: Observation, ids: Fresh, startNow: int, endNow: int,
                                   scopeOk: bool): Result<(Tables, Outcome)>
    requires |ids.intents| == |SINKS|
  {
    if !Holds(t, c, startNow) then Err(LeaseLost)
    else
      match Evaluate(env, t, TriggerFor(o, c.ruleId, c.version), o, ids, startNow, scopeOk)
      case Err(f) => Err(f)
      case Ok((t', outcome)) => if Holds(t', c, endNow) then Ok((t', outcome)) else Err(LeaseLost)
  }

  // ---------------------------------------------------------------- invariant

  function KeyJson(r: EvaluationRow): Json {
    JArr([JStr("c3-observation-v1"), JStr(r.ruleId), JInt(r.ruleVersion), JStr(SignalText(r.signal)), ScopeJson(r.scope), JStr(r.source)])
  }

  lemma SignalTextInjective(a: Signal, b: Signal)
    ensures SignalText(a) == SignalText(b) <==> a == b
  {
    if a != b {
      assert |SignalText(a)| != |SignalText(b)| || SignalText(a)[0] != SignalText(b)[0];
    }
  }

  /** A key is made of the rule, its version, the signal, the subject and the source, and of nothing else. */
  lemma KeyJsonInjective(a: EvaluationRow, b: EvaluationRow)
    ensures KeyJson(a) == KeyJson(b) <==>
            (a.ruleId, a.ruleVersion, a.signal, a.scope, a.source) == (b.ruleId, b.ruleVersion, b.signal, b.scope, b.source)
  {
    var (j, k) := (KeyJson(a).items, KeyJson(b).items);
    if KeyJson(a) == KeyJson(b) {
      assert j[1] == k[1] && j[2] == k[2] && j[3] == k[3] && j[4] == k[4] && j[5] == k[5];
      SignalTextInjective(a.signal, b.signal);
      ScopeJsonInjective(a.scope, b.scope);
    }
  }

  /**
   Observations of one rule version and signal, of one subject and from one source share their key. Where any others
   share it, two different values hash alike.
   */
  lemma SameKeyIff(env: Env, v: Version, o: Observation, w: Version, p: Observation)
    ensures
      var (a, b) := (StoredEvaluation(env, v, o, ""), StoredEvaluation(env, w, p, ""));
      ObservationKey(env, v, o) == ObservationKey(env, w, p) <==>
        (v.ruleId, v.version, v.signal, o.scope, o.source) == (w.ruleId, w.version, w.signal, p.scope, p.source)
        || (KeyJson(a) != KeyJson(b) && env.hash(KeyJson(a)) == env.hash(KeyJson(b)))
  {
    var (a, b) := (StoredEvaluation(env, v, o, ""), StoredEvaluation(env, w, p, ""));
    assert ObservationKey(env, v, o) == env.hash(KeyJson(a)) && ObservationKey(env, w, p) == env.hash(KeyJson(b));
    hide KeyJson, ObservationKey;
    KeyJsonInjective(a, b);
  }

  ghost predicate RowsKeyed(env: Env, t: Tables) {
    forall e | e in t.evaluations ::
      var r := t.evaluations[e];
      r.id == e && r.tenant == r.scope.tenant && r.key == env.hash(KeyJson(r)) && !r.outcome.Observed?
  }

  ghost predicate UniqueKeys(t: Tables) {
    forall a, b | a in t.evaluations && b in t.evaluations ::
      t.evaluations[a].tenant == t.evaluations[b].tenant && t.evaluations[a].key == t.evaluations[b].key ==> a == b
  }

  function AlertKey(r: EvaluationRow): string { "c3:" + r.key }

  /** Some intent of the context goes to this destination. */
  ghost predicate Reached(intents: map<string, Delivery.Intent>, contextId: string, s: Sink) {
    exists i :: Addressed(intents, i, contextId, s)
  }

  /** The event and the context an evaluation's match produced, with an intent for every approved sink. */
  ghost predicate Effect(t: Tables, e: string, v: string, x: string) {
    && e in t.evaluations && v in t.events && x in t.contexts
    && t.events[v].alertKey == AlertKey(t.evaluations[e])
    && t.contexts[x].eventId == v && t.contexts[x].evaluationId == e
    && forall s | s in SINKS :: Reached(t.intents, x, s)
  }

  /** Matched exactly when the whole effect is there. */
  ghost predicate MatchedHasEffect(t: Tables) {
    forall e | e in t.evaluations && t.evaluations[e].outcome.WasMatched? :: exists v, x :: Effect(t, e, v, x)
  }

  ghost predicate Causes(evaluations: map<string, EvaluationRow>, e: string, event: Event) {
    e in evaluations && evaluations[e].outcome.WasMatched? && event.alertKey == AlertKey(evaluations[e])
  }

  ghost predicate EventsOwned(evaluations: map<string, EvaluationRow>, events: map<string, Event>) {
    && (forall v | v in events :: exists e :: Causes(evaluations, e, events[v]))
    && (forall v, w | v in events && w in events :: events[v].alertKey == events[w].alertKey ==> v == w)
  }

  ghost predicate ContextsOwned(evaluations: map<string, EvaluationRow>, events: map<string, Event>, contexts: map<string, Context>) {
    && (forall x | x in contexts ::
          contexts[x].evaluationId in evaluations && evaluations[contexts[x].evaluationId].outcome.WasMatched?
          && contexts[x].eventId in events)
    && (forall x, y | x in contexts && y in contexts ::
          contexts[x].evaluationId == contexts[y].evaluationId || contexts[x].eventId == contexts[y].eventId ==> x == y)
  }

  predicate SameAddress(a: Delivery.Intent, b: Delivery.Intent) {
    a.contextId == b.contextId && a.channel == b.channel && a.destination == b.destination
  }

  predicate Approved(i: Delivery.Intent) {
    exists s | s in SINKS :: i.channel == s.channel && i.destination == s.destination
  }

  ghost predicate IntentsOwned(contexts: map<string, Context>, intents: map<string, Delivery.Intent>) {
    && (forall i | i in intents :: intents[i].contextId in contexts && Delivery.Live(intents[i]) && Approved(intents[i]))
    && (forall i, j | i in intents && j in intents && SameAddress(intents[i], intents[j]) :: i == j)
  }

  ghost predicate VersionsStored(t: Tables) {
    forall k | k in t.versions ::
      var v := t.versions[k];
      v.ruleId == k.0 && v.version == k.1 && StoredVersion(v) && NoNul(v.ruleId) && v.owner != ""
  }

  ghost predicate RulesLive(t: Tables) { forall r | r in t.rules :: Schedule.Live(t.rules[r]) }

  ghost predicate Settled(env: Env, t: Tables) {
    && RowsKeyed(env, t) && UniqueKeys(t) && MatchedHasEffect(t)
    && EventsOwned(t.evaluations, t.events) && ContextsOwned(t.evaluations, t.events, t.contexts) && IntentsOwned(t.contexts, t.intents)
    && VersionsStored(t) && RulesLive(t)
  }

  /** uuid4 returned identifiers no table uses, all different. */
  ghost predicate FreshFor(t: Tables, ids: Fresh) {
    && |ids.intents| == |SINKS|
    && ids.evaluation !in t.evaluations && ids.event !in t.events && ids.context !in t.contexts
    && (forall k | 0 <= k < |ids.intents| :: ids.intents[k] !in t.intents)
    && (forall j, k | 0 <= j < k < |ids.intents| :: ids.intents[j] != ids.intents[k])
  }
}
