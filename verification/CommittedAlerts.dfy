/**
 What a committed evaluation puts into the tables, column by column, and for which rules (alert_evaluation.py,
 alert_dispatch.py, alert_triggers.py).
 */
module CommittedAlerts {
  import opened Json
  import opened Evaluation
  import opened Materialization
  import opened Pipeline
  import opened ExactlyOnce
  import Schedule
  import Delivery

  // ---------------------------------------------------------------- which rules

  /** The rule and the version under which an action evaluates; none for an action that evaluates nothing. */
  function EvaluatedUnder(a: Action): Option<(string, int)> {
    match a
    case ScheduledEvaluation(c, _, _, _, _, _) => Some((c.ruleId, c.version))
    case CompletedRunEvaluation(ruleId, version, _, _, _, _) => Some((ruleId, version))
    case _ => None
  }

  /** A claim's token holds the rule at this time, for this attempt. */
  predicate Leases(r: Schedule.Rule, c: Schedule.Claim, now: int) {
    r.token == Some(c.token) && r.expires.Some? && now < r.expires.value && r.attempts == c.attempts
  }

  /** An evaluation that commits was accepted by its claim, and left the rules alone. */
  lemma CommitMeansClaim(env: Env, t: Tables, tr: Trigger, o: Observation, ids: Fresh, now: int, scopeOk: bool)
    requires |ids.intents| == |SINKS| && Evaluate(env, t, tr, o, ids, now, scopeOk).Ok?
    ensures Stored(t, tr, o) && Watches(t, tr.ruleId, tr.ruleVersion, o)
    ensures Evaluate(env, t, tr, o, ids, now, scopeOk).value.0.rules == t.rules
  {
    hide ValidObservation, ObservationKey, EvaluateRule, Watches, InsertIntents, UpsertEvent, UpsertContext, CandidateMatches, ValidCandidate;
    ClaimAcceptedIff(env, t, tr, o, ids.evaluation);
  }

  /**
   Evaluations are of watched observations. Whenever an action changes the evaluations, it evaluates an observation
   under a rule that is enabled and not paused in the tables before it, that watches this signal and subject and has
   reached this version; a scheduled one does so under a lease that is current at its start and at its end.
   */
  lemma OnlyWatchedEvaluations(env: Env, t: Tables, a: Action)
    requires Enabled(t, a) && Act(env, t, a).evaluations != t.evaluations
    ensures
      && (a.ScheduledEvaluation? || a.CompletedRunEvaluation?)
      && var (ruleId, version) := EvaluatedUnder(a).value;
      && ruleId in t.rules && (ruleId, version) in t.versions
      && var (r, v) := (t.rules[ruleId], t.versions[(ruleId, version)]);
      && r.enabled && !r.paused && version <= r.version && v.signal == a.o.signal
      && (r.tenant, r.issuer, r.portfolio) == (a.o.scope.tenant, a.o.scope.issuer, a.o.scope.portfolio)
      && (a.ScheduledEvaluation? ==> Leases(r, a.claim, a.startNow) && Leases(r, a.claim, a.endNow))
  {
    hide Evaluate;
    match a
    case ScheduledEvaluation(c, o, ids, startNow, endNow, scopeOk) =>
      CommitMeansClaim(env, t, TriggerFor(o, c.ruleId, c.version), o, ids, startNow, scopeOk);
    case CompletedRunEvaluation(ruleId, version, o, ids, now, scopeOk) =>
      CommitMeansClaim(env, t, TriggerFor(o, ruleId, version), o, ids, now, scopeOk);
    case _ =>
  }

  // ---------------------------------------------------------------- which columns

  /** The event of a match: the rule's words about the observation's issuer and run, under the key of the observation. */
  predicate IsEventOf(e: Event, v: Version, o: Observation, key: string, c: Candidate)
    requires v.config.Some?
  {
    && (e.kind, e.title, e.impact) == (v.config.value.kind, v.config.value.title, v.config.value.impact)
    && (e.alertKey, e.contextId, e.issuer, e.createdBy) == ("c3:" + key, None, o.scope.issuer, v.owner)
    && (e.runId, e.evidence, e.authority) == (c.runId, c.evidence, c.authority)
  }

  predicate IsContextOf(x: Context, v: Version, o: Observation, key: string, evaluationId: string, eventId: string) {
    && x.ownership == Delivery.Ownership(o.scope.tenant, v.owner, v.team, o.scope.issuer, o.scope.portfolio)
    && (x.eventId, x.evaluationId, x.ruleId, x.ruleVersion) == (eventId, evaluationId, v.ruleId, v.version)
    && (x.signal, x.root, x.hops) == (o.signal, o.root, o.hops)
    && x.payload == JObj([Field("correlation_id", JStr(o.correlation)), Field("observation_key", JStr(key)),
                          Field("subject_scope", ScopeJson(o.scope))])
  }

  /** A delivery nobody has tried yet. */
  predicate IsDeliveryOf(i: Delivery.Intent, x: Context, contextId: string, channel: Delivery.Channel, destination: string, max: int,
                         now: int) {
    && (i.ownership, i.contextId, i.eventId, i.root) == (x.ownership, contextId, x.eventId, x.root)
    && (i.channel, i.destination, i.max) == (channel, destination, max)
    && (i.status, i.attempts, i.available, i.created) == (Delivery.Pending, 0, now, now)
    && i.token.None? && i.expires.None? && i.rendered.None? && i.reason.None?
  }

  /** The columns of everything a first match writes. */
  ghost predicate WritesMatch(env: Env, after: Tables, v: Version, o: Observation, ids: Fresh, now: int)
    requires v.config.Some? && |ids.intents| == 2 && EvaluateRule(env, v, o, ids.evaluation).Matched?
  {
    var key := ObservationKey(env, v, o);
    && ids.evaluation in after.evaluations && after.evaluations[ids.evaluation].outcome == WasMatched
    && IsObservation(after.evaluations[ids.evaluation].(outcome := Observed), v, o)
    && ids.event in after.events && IsEventOf(after.events[ids.event], v, o, key, EvaluateRule(env, v, o, ids.evaluation).candidate)
    && ids.context in after.contexts && IsContextOf(after.contexts[ids.context], v, o, key, ids.evaluation, ids.event)
    && ids.intents[0] in after.intents && ids.intents[1] in after.intents
    && IsDeliveryOf(after.intents[ids.intents[0]], after.contexts[ids.context], ids.context, Delivery.Email, "owner-email-route", 5, now)
    && IsDeliveryOf(after.intents[ids.intents[1]], after.contexts[ids.context], ids.context, Delivery.InApp, "monitor-inbox", 3, now)
  }

  /**
   The first evaluation of an observation, as an operator sees it: the rule's decision is the recorded outcome, and a
   match that commits has written its event, its context and its two deliveries with these columns.
   */
  lemma FirstEvaluationWrites(env: Env, t: Tables, tr: Trigger, o: Observation, ids: Fresh, now: int, scopeOk: bool)
    requires Sound(env) && Settled(env, t) && FreshFor(t, ids) && Evaluate(env, t, tr, o, ids, now, scopeOk).Ok?
    requires ClaimEvaluation(env, t, tr, o, ids.evaluation).Ok? && ClaimEvaluation(env, t, tr, o, ids.evaluation).value.2
    ensures
      var v := t.versions[(tr.ruleId, tr.ruleVersion)];
      var (d, (after, outcome)) := (EvaluateRule(env, v, o, ids.evaluation), Evaluate(env, t, tr, o, ids, now, scopeOk).value);
      && (outcome.WasMatched? <==> d.Matched?) && (outcome.WasIgnored? <==> d.Ignored?) && (outcome.WasRejected? <==> d.Rejected?)
      && ids.evaluation in after.evaluations && after.evaluations[ids.evaluation].outcome == outcome
      && (d.Matched? ==> v.config.Some? && |ids.intents| == 2 && WritesMatch(env, after, v, o, ids, now))
  {
    hide ValidObservation, EvaluateRule, ObservationKey, Settled, SelfReferential, ShapeOf, ClaimEvaluation, Evaluate, FreshFor, Taken,
         FreshEffect, StoredEvaluation, WritesMatch, Collides, Watches, Announces;
    ClaimAcceptedIff(env, t, tr, o, ids.evaluation);
    FreshCount(t, ids);
    var v := t.versions[(tr.ruleId, tr.ruleVersion)];
    CreatedOutcome(env, t, tr, o, ids, now, scopeOk);
    StoredRow(env, v, o, ids.evaluation);
    if EvaluateRule(env, v, o, ids.evaluation).Matched? {
      var after := Evaluate(env, t, tr, o, ids, now, scopeOk).value.0;
      MatchHasConfig(env, v, o, ids.evaluation);
      EffectWrites(env, t, after, v, o, ids, now);
    } else {
      var after := Evaluate(env, t, tr, o, ids, now, scopeOk).value.0;
      assert after.evaluations[ids.evaluation].outcome == OutcomeOf(EvaluateRule(env, v, o, ids.evaluation));
    }
  }

  lemma MatchHasConfig(env: Env, v: Version, o: Observation, id: string)
    requires EvaluateRule(env, v, o, id).Matched?
    ensures v.config.Some? && v.signal == o.signal
  {
    hide BoundedEvidence, ObservationKey;
  }

  lemma StoredRow(env: Env, v: Version, o: Observation, id: string)
    ensures var row := StoredEvaluation(env, v, o, id); row.id == id && row.key == ObservationKey(env, v, o) && row.outcome == Observed
    ensures v.signal == o.signal ==> IsObservation(StoredEvaluation(env, v, o, id), v, o)
  {
  }

  lemma EffectWrites(env: Env, t: Tables, after: Tables, v: Version, o: Observation, ids: Fresh, now: int)
    requires FreshFor(t, ids) && EvaluateRule(env, v, o, ids.evaluation).Matched?
    requires
      var row := StoredEvaluation(env, v, o, ids.evaluation);
      FreshEffect(t.(evaluations := t.evaluations[row.id := row]), after, row, EvaluateRule(env, v, o, ids.evaluation).candidate, ids, now)
    ensures v.config.Some? && |ids.intents| == 2 && WritesMatch(env, after, v, o, ids, now)
    ensures ids.evaluation in after.evaluations && after.evaluations[ids.evaluation].outcome == WasMatched
  {
    FreshCount(t, ids);
    MatchHasConfig(env, v, o, ids.evaluation);
    StoredRow(env, v, o, ids.evaluation);
    var row := StoredEvaluation(env, v, o, ids.evaluation);
    var c := EvaluateRule(env, v, o, ids.evaluation).candidate;
    PartsWrite(env, v, o, ids.evaluation, ids.context, ids.event, now);
    assert SINKS[0] == Sink(Delivery.Email, "owner-email-route", 5) && SINKS[1] == Sink(Delivery.InApp, "monitor-inbox", 3);
    hide EvaluateRule, ObservationKey, FreshFor, StoredEvaluation, EventFor, ContextFor, IntentFor;
    hide IsEventOf, IsContextOf, IsDeliveryOf, IsObservation;
    assert ids.intents[0] in after.intents && ids.intents[1] in after.intents;
    assert after.evaluations[ids.evaluation].(outcome := Observed) == row;
  }

  lemma PartsWrite(env: Env, v: Version, o: Observation, id: string, contextId: string, eventId: string, now: int)
    requires EvaluateRule(env, v, o, id).Matched? && v.config.Some?
    ensures
      var ev := StoredEvaluation(env, v, o, id).(outcome := WasMatched);
      var (c, key) := (EvaluateRule(env, v, o, id).candidate, ObservationKey(env, v, o));
      var x := ContextFor(ev, c, eventId);
      && IsEventOf(EventFor(c, ev.owner), v, o, key, c) && IsContextOf(x, v, o, key, id, eventId)
      && IsDeliveryOf(IntentFor(ev, contextId, eventId, SINKS[0], now), x, contextId, Delivery.Email, "owner-email-route", 5, now)
      && IsDeliveryOf(IntentFor(ev, contextId, eventId, SINKS[1], now), x, contextId, Delivery.InApp, "monitor-inbox", 3, now)
  {
    hide EvaluateRule, ObservationKey;
    MatchHasConfig(env, v, o, id);
    MatchCarries(env, v, o, id, "");
    CandidateKey(env, v, o, id);
  }

  lemma CandidateKey(env: Env, v: Version, o: Observation, id: string)
    requires EvaluateRule(env, v, o, id).Matched?
    ensures
      var c := EvaluateRule(env, v, o, id).candidate;
      c.observationKey == ObservationKey(env, v, o) && c.alertKey == "c3:" + c.observationKey
  {
    hide BoundedEvidence;
  }

  // ---------------------------------------------------------------- what was there before

  /** A delivery of this alert to this sink, whatever has become of it. */
  predicate Delivers(i: Delivery.Intent, ownership: Delivery.Ownership, contextId: string, eventId: string, root: string, s: Sink) {
    && (i.ownership, i.contextId, i.eventId, i.root) == (ownership, contextId, eventId, root)
    && (i.channel, i.destination, i.max) == (s.channel, s.destination, s.max)
  }

  ghost predicate HasDelivery(intents: map<string, Delivery.Intent>, ownership: Delivery.Ownership, contextId: string, eventId: string,
                              root: string, s: Sink) {
    exists i :: i in intents && Delivers(intents[i], ownership, contextId, eventId, root, s)
  }

  /** The sink loop, over whatever deliveries are there already, leaves the right one for every sink, or none at all. */
  lemma {:induction false} IntentsAgree(intents: map<string, Delivery.Intent>, ids: seq<string>, sinks: seq<Sink>, ev: EvaluationRow,
                                        x: Context, contextId: string, now: int)
    requires |ids| == |sinks| && (forall k | 0 <= k < |ids| :: ids[k] !in intents)
    requires forall j, k | 0 <= j < k < |ids| :: ids[j] != ids[k]
    requires InsertIntents(intents, ids, sinks, ev, x, contextId, now).Some?
    ensures
      var r := InsertIntents(intents, ids, sinks, ev, x, contextId, now).value;
      && (forall i | i in intents :: i in r && r[i] == intents[i])
      && (forall k | 0 <= k < |sinks| :: HasDelivery(r, OwnershipOf(ev), contextId, x.eventId, x.root, sinks[k]))
    decreases |sinks|
  {
    if sinks != [] {
      var s := sinks[0];
      var after := UpsertIntent(intents, ids[0], IntentFor(ev, contextId, x.eventId, s, now), s);
      var id := FindIntent(after, contextId, s).value;
      assert Delivers(after[id], OwnershipOf(ev), contextId, x.eventId, x.root, s);
      hide Delivers, UpsertIntent, IntentFor, IntentMatches, FindIntent;
      UpsertAddsOne(intents, ids, IntentFor(ev, contextId, x.eventId, s, now), s);
      IntentsAgree(after, ids[1..], sinks[1..], ev, x, contextId, now);
      var r := InsertIntents(after, ids[1..], sinks[1..], ev, x, contextId, now).value;
      forall k | 0 <= k < |sinks| ensures HasDelivery(r, OwnershipOf(ev), contextId, x.eventId, x.root, sinks[k]) {
        if k == 0 {
          assert id in r && r[id] == after[id];
        } else {
          assert sinks[k] == sinks[1..][k - 1];
        }
      }
    }
  }

  lemma UpsertAddsOne(intents: map<string, Delivery.Intent>, ids: seq<string>, i: Delivery.Intent, s: Sink)
    requires ids != [] && (forall k | 0 <= k < |ids| :: ids[k] !in intents) && forall j, k | 0 <= j < k < |ids| :: ids[j] != ids[k]
    ensures
      var after := UpsertIntent(intents, ids[0], i, s);
      && (forall k | 0 <= k < |ids[1..]| :: ids[1..][k] !in after) && forall j | j in intents :: j in after && after[j] == intents[j]
  {
    assert forall k | 0 <= k < |ids[1..]| :: ids[1..][k] == ids[k + 1];
  }

  /** The event and the context of a candidate on its row, as they stand in the tables. */
  ghost predicate Agrees(after: Tables, ev: EvaluationRow, c: Candidate, v: string, x: string) {
    var ownership := Delivery.Ownership(ev.tenant, ev.owner, ev.team, ev.issuer, ev.portfolio);
    && v in after.events && x in after.contexts
    && after.events[v] == Event(c.alertKey, None, c.issuer, c.runId, c.kind, c.title, c.impact, c.evidence, c.authority, ev.owner)
    && after.contexts[x] == Context(ownership, v, ev.id, ev.ruleId, ev.ruleVersion, ev.signal, c.root, c.hops,
                                    JObj([Field("correlation_id", JStr(c.correlation)), Field("observation_key", JStr(c.observationKey)),
                                          Field("subject_scope", ScopeJson(c.scope))]))
    && HasDelivery(after.intents, ownership, x, v, c.root, Sink(Delivery.Email, "owner-email-route", 5))
    && HasDelivery(after.intents, ownership, x, v, c.root, Sink(Delivery.InApp, "monitor-inbox", 3))
  }

  /**
   A materialization that succeeds, on any tables, leaves the candidate's own event, context and deliveries, those it
   wrote or those it found: rows in the way that differ in any of these columns make it fail.
   */
  lemma MaterializedAgrees(env: Env, t: Tables, c: Candidate, ids: Fresh, now: int, scopeOk: bool)
    requires FreshFor(t, ids) && Materialize(env, t, c, ids, now, scopeOk).Ok?
    ensures c.evaluationId in t.evaluations
    ensures
      var (ev, after) := (t.evaluations[c.evaluationId], Materialize(env, t, c, ids, now, scopeOk).value);
      && after.evaluations == t.evaluations[c.evaluationId := ev.(outcome := WasMatched)] && after.rules == t.rules
      && (c.runId.Some? ==> scopeOk) && exists v, x :: Agrees(after, ev, c, v, x)
  {
    var ev := t.evaluations[c.evaluationId];
    var matched := ev.(outcome := WasMatched);
    var events := UpsertEvent(t.events, ids.event, EventFor(c, ev.owner));
    var v := FindEvent(events, c.alertKey).value;
    var contexts := UpsertContext(t.contexts, ids.context, ContextFor(matched, c, v));
    var x := FindContext(contexts, v).value;
    hide UpsertEvent, UpsertContext, FindEvent, FindContext, CandidateMatches, ValidCandidate, InsertIntents, HasDelivery;
    IntentsAgree(t.intents, ids.intents, SINKS, matched, contexts[x], x, now);
    assert SINKS[0] == Sink(Delivery.Email, "owner-email-route", 5) && SINKS[1] == Sink(Delivery.InApp, "monitor-inbox", 3);
    assert v in events && x in contexts by { FoundThere(events, c.alertKey, contexts, v); }
    assert Agrees(Materialize(env, t, c, ids, now, scopeOk).value, ev, c, v, x);
  }

  lemma FoundThere(events: map<string, Event>, key: string, contexts: map<string, Context>, eventId: string)
    ensures FindEvent(events, key).Some? ==> FindEvent(events, key).value in events
    ensures FindContext(contexts, eventId).Some? ==> FindContext(contexts, eventId).value in contexts
  {
  }
}
