/**
 The transactions of the alert pipeline step by step over the stored tables (alert_evaluation.py:288-374,
 alert_dispatch.py:530-673, alert_triggers.py:609-663), proved to be the atomic steps that the exactly-once results are
 about. A failed transaction restores what it found.
 */
module AlertDatabase {
  import opened Json
  import opened Evaluation
  import opened Materialization
  import opened Pipeline
  import Schedule
  import Delivery

  /** The UNIQUE columns a search relies on. */
  ghost predicate UniqueEvaluations(evaluations: map<string, EvaluationRow>) {
    forall a, b | a in evaluations && b in evaluations ::
      evaluations[a].tenant == evaluations[b].tenant && evaluations[a].key == evaluations[b].key ==> a == b
  }

  ghost predicate UniqueEvents(events: map<string, Event>) {
    forall a, b | a in events && b in events :: events[a].alertKey == events[b].alertKey ==> a == b
  }

  ghost predicate UniqueContexts(contexts: map<string, Context>) {
    forall a, b | a in contexts && b in contexts :: contexts[a].eventId == contexts[b].eventId ==> a == b
  }

  ghost predicate UniqueAddresses(intents: map<string, Delivery.Intent>) {
    forall a, b | a in intents && b in intents && SameAddress(intents[a], intents[b]) :: a == b
  }

  ghost predicate Constrained(t: Tables) {
    UniqueEvaluations(t.evaluations) && UniqueEvents(t.events) && UniqueContexts(t.contexts) && UniqueAddresses(t.intents)
  }

  /** The reachable states of the pipeline satisfy the constraints. */
  lemma SettledIsConstrained(env: Env, t: Tables)
    requires Settled(env, t)
    ensures Constrained(t)
  {
    hide RowsKeyed, MatchedHasEffect, VersionsStored, RulesLive;
  }

  class Database {
    const rules: map<string, Schedule.Rule>
    const versions: map<(string, int), Version>
    var evaluations: map<string, EvaluationRow>
    var events: map<string, Event>
    var contexts: map<string, Context>
    var intents: map<string, Delivery.Intent>

    ghost function View(): Tables
      reads this
    {
      Tables(rules, versions, evaluations, events, contexts, intents)
    }

    method SelectEvaluation(tenant: string, key: string) returns (id: Option<string>)
      requires UniqueEvaluations(evaluations)
      ensures id == FindEvaluation(View(), tenant, key)
    {
      var todo := evaluations.Keys;
      while todo != {}
        invariant todo <= evaluations.Keys
        invariant forall x | x in evaluations.Keys - todo :: !KeyedBy(View(), x, tenant, key)
        decreases |todo|
      {
        var x :| x in todo;
        if evaluations[x].tenant == tenant && evaluations[x].key == key {
          assert KeyedBy(View(), x, tenant, key);
          return Some(x);
        }
        todo := todo - {x};
      }
      id := None;
    }

    method SelectEvent(alertKey: string) returns (id: Option<string>)
      requires UniqueEvents(events)
      ensures id == FindEvent(events, alertKey)
    {
      var todo := events.Keys;
      while todo != {}
        invariant todo <= events.Keys && forall x | x in events.Keys - todo :: events[x].alertKey != alertKey
        decreases |todo|
      {
        var x :| x in todo;
        if events[x].alertKey == alertKey {
          return Some(x);
        }
        todo := todo - {x};
      }
      id := None;
    }

    method SelectContext(eventId: string) returns (id: Option<string>)
      requires UniqueContexts(contexts)
      ensures id == FindContext(contexts, eventId)
    {
      var todo := contexts.Keys;
      while todo != {}
        invariant todo <= contexts.Keys && forall x | x in contexts.Keys - todo :: contexts[x].eventId != eventId
        decreases |todo|
      {
        var x :| x in todo;
        if contexts[x].eventId == eventId {
          return Some(x);
        }
        todo := todo - {x};
      }
      id := None;
    }

    method SelectIntent(contextId: string, s: Sink) returns (id: Option<string>)
      requires UniqueAddresses(intents)
      ensures id == FindIntent(intents, contextId, s)
    {
      var todo := intents.Keys;
      while todo != {}
        invariant todo <= intents.Keys && forall x | x in intents.Keys - todo :: !Addressed(intents, x, contextId, s)
        decreases |todo|
      {
        var x :| x in todo;
        if Addressed(intents, x, contextId, s) {
          return Some(x);
        }
        todo := todo - {x};
      }
      id := None;
    }

    /** `claim_rule_evaluation`: insert or get one observed evaluation. */
    method ClaimRuleEvaluation(env: Env, tr: Trigger, o: Observation, newId: string) returns (r: Result<(string, bool)>)
      requires Constrained(View()) && newId !in evaluations
      modifies this`evaluations
      ensures r.Err? ==> ClaimEvaluation(env, old(View()), tr, o, newId) == Err(r.failure) && View() == old(View())
      ensures r.Ok? ==> ClaimEvaluation(env, old(View()), tr, o, newId) == Ok((View(), r.value.0, r.value.1)) && Constrained(View())
    {
      hide ValidObservation, ClaimProblem, ObservedRow, FindEvaluation, UniqueEvents, UniqueContexts, UniqueAddresses;
      if !ValidObservation(env, o) {
        return Err(ClaimRejected("invalid_observation"));
      }
      if tr.ruleId !in rules || (tr.ruleId, tr.ruleVersion) !in versions || rules[tr.ruleId].tenant != o.scope.tenant {
        return Err(ClaimRejected("watch_rule_not_found"));
      }
      var (rule, v) := (rules[tr.ruleId], versions[(tr.ruleId, tr.ruleVersion)]);
      var problem := ClaimProblem(rule, v, tr, o);
      if problem.Some? {
        return Err(ClaimRejected(problem.value));
      }
      var key := ObservationKey(env, v, o);
      var existing := SelectEvaluation(rule.tenant, key);
      if existing.Some? {
        return Ok((existing.value, false));
      }
      evaluations := evaluations[newId := ObservedRow(env, rule, v, o, newId)];
      ClaimKeepsUnique(env, old(View()), rule, v, o, newId);
      return Ok((newId, true));
    }

    /** Insert on conflict do nothing. */
    method InsertEvent(id: string, e: Event)
      requires UniqueEvents(events) && id !in events
      modifies this`events
      ensures events == UpsertEvent(old(events), id, e) && UniqueEvents(events)
    {
      var present := SelectEvent(e.alertKey);
      if present.None? {
        events := events[id := e];
      }
    }

    method InsertContext(id: string, x: Context)
      requires UniqueContexts(contexts) && id !in contexts
      modifies this`contexts
      ensures contexts == UpsertContext(old(contexts), id, x) && UniqueContexts(contexts)
    {
      var todo := contexts.Keys;
      while todo != {}
        invariant todo <= contexts.Keys
        invariant forall y | y in contexts.Keys - todo :: contexts[y].eventId != x.eventId && contexts[y].evaluationId != x.evaluationId
        decreases |todo|
      {
        var y :| y in todo;
        if contexts[y].eventId == x.eventId || contexts[y].evaluationId == x.evaluationId {
          return;
        }
        todo := todo - {y};
      }
      contexts := contexts[id := x];
    }

    method InsertIntent(id: string, i: Delivery.Intent, s: Sink)
      requires UniqueAddresses(intents) && id !in intents && i.channel == s.channel && i.destination == s.destination
      modifies this`intents
      ensures intents == UpsertIntent(old(intents), id, i, s) && UniqueAddresses(intents) && intents.Keys <= old(intents).Keys + {id}
    {
      var present := SelectIntent(i.contextId, s);
      if present.None? {
        AddressFree(intents, i, s);
        intents := intents[id := i];
      }
    }

    /** The loop over the sinks. */
    method InsertIntentRows(ids: seq<string>, ev: EvaluationRow, x: Context, contextId: string, now: int) returns (ok: bool)
      requires |ids| == |SINKS| && UniqueAddresses(intents)
      requires (forall k | 0 <= k < |ids| :: ids[k] !in intents) && (forall j, k | 0 <= j < k < |ids| :: ids[j] != ids[k])
      modifies this`intents
      ensures InsertIntents(old(intents), ids, SINKS, ev, x, contextId, now) == if ok then Some(intents) else None
      ensures UniqueAddresses(intents)
    {
      hide IntentFor, IntentMatches, Addressed, FindIntent, UpsertIntent, UniqueAddresses;
      var k := 0;
      assert ids[0..] == ids && SINKS[0..] == SINKS;
      while k < |SINKS|
        invariant 0 <= k <= |SINKS| && UniqueAddresses(intents) && forall j | k <= j < |ids| :: ids[j] !in intents
        invariant InsertIntents(intents, ids[k..], SINKS[k..], ev, x, contextId, now)
          == InsertIntents(old(intents), ids, SINKS, ev, x, contextId, now)
      {
        var s := SINKS[k];
        assert ids[k..][0] == ids[k] && ids[k..][1..] == ids[k + 1..];
        assert SINKS[k..][0] == s && SINKS[k..][1..] == SINKS[k + 1..];
        AddressOfIntent(ev, contextId, x.eventId, s, now);
        InsertIntent(ids[k], IntentFor(ev, contextId, x.eventId, s, now), s);
        var id := SelectIntent(contextId, s);
        FoundIsThere(intents, contextId, s);
        if id.None? || !IntentMatches(intents[id.value], x, contextId, ev, s) {
          return false;
        }
        k := k + 1;
      }
      ok := true;
    }

    /** `materialize_alert`: after a failure the caller's transaction rolls back. */
    method MaterializeAlert(env: Env, c: Candidate, ids: Fresh, now: int, scopeOk: bool) returns (failure: Option<Failure>)
      requires Constrained(View()) && FreshIds(View(), ids)
      modifies this`evaluations, this`events, this`contexts, this`intents
      ensures failure.Some? ==> Materialize(env, old(View()), c, ids, now, scopeOk) == Err(failure.value)
      ensures failure.None? ==> Materialize(env, old(View()), c, ids, now, scopeOk) == Ok(View())
    {
      hide ValidCandidate, CandidateMatches, EventFor, ContextFor, ContextMatches, FindEvent, FindContext, InsertIntents, UniqueAddresses,
        UpsertEvent, UpsertContext, UniqueEvents, UniqueContexts;
      if !ValidCandidate(c) {
        return Some(InvalidCandidate);
      }
      if c.evaluationId !in evaluations
         || (evaluations[c.evaluationId].ruleId, evaluations[c.evaluationId].ruleVersion) !in versions {
        return Some(CandidateMismatch);
      }
      var ev := evaluations[c.evaluationId];
      if !CandidateMatches(env, ev, versions[(ev.ruleId, ev.ruleVersion)], c) {
        return Some(CandidateMismatch);
      }
      if c.runId.Some? && !scopeOk {
        return Some(RunScopeRejected);
      }
      var matched := ev.(outcome := WasMatched);
      evaluations := evaluations[c.evaluationId := matched];
      InsertEvent(ids.event, EventFor(c, ev.owner));
      var event := SelectEvent(c.alertKey);
      FoundEventIsThere(events, c.alertKey);
      if event.None? || events[event.value] != EventFor(c, ev.owner) {
        return Some(EventCollision);
      }
      InsertContext(ids.context, ContextFor(matched, c, event.value));
      var context := SelectContext(event.value);
      FoundContextIsThere(contexts, event.value);
      if context.None? || !ContextMatches(contexts[context.value], event.value, matched, c) {
        return Some(ContextCollision);
      }
      var ok := InsertIntentRows(ids.intents, matched, contexts[context.value], context.value, now);
      return if ok then None else Some(IntentCollision);
    }

    /**
     The transaction both triggers share: claim, then replay the recorded outcome or evaluate and record it. Whatever
     fails, nothing of the transaction stays.
     */
    method RunEvaluation(env: Env, tr: Trigger, o: Observation, ids: Fresh, now: int, scopeOk: bool) returns (r: Result<Outcome>)
      requires Constrained(View()) && FreshFor(View(), ids)
      modifies this`evaluations, this`events, this`contexts, this`intents
      ensures r.Err? ==> Evaluate(env, old(View()), tr, o, ids, now, scopeOk) == Err(r.failure) && View() == old(View())
      ensures r.Ok? ==> Evaluate(env, old(View()), tr, o, ids, now, scopeOk) == Ok((View(), r.value))
    {
      hide ClaimEvaluation, Materialize, EvaluateRule, Constrained;
      var (e0, v0, x0, i0) := (evaluations, events, contexts, intents);
      r := EvaluateClaimed(env, tr, o, ids, now, scopeOk);
      if r.Err? {
        evaluations, events, contexts, intents := e0, v0, x0, i0;
      }
    }

    /** `_lock_owned_scheduled_claim`: whether the lease is still the rule's current one. */
    method LockOwnedClaim(c: Schedule.Claim, now: int) returns (owned: bool)
      ensures owned <==> Pipeline.Holds(View(), c, now)
    {
      owned := c.ruleId in rules && Schedule.Owns(rules[c.ruleId], c, now);
    }

    /**
     The transaction of a scheduled rule: the same evaluation between two looks at the lease. A lease lost before or
     during the evaluation leaves nothing of it behind.
     */
    method RunScheduledEvaluation(env: Env, c: Schedule.Claim, o: Observation, ids: Fresh, startNow: int, endNow: int, scopeOk: bool)
        returns (r: Result<Outcome>)
      requires Constrained(View()) && FreshFor(View(), ids)
      modifies this`evaluations, this`events, this`contexts, this`intents
      ensures r.Err? ==>
                EvaluateScheduled(env, old(View()), c, o, ids, startNow, endNow, scopeOk) == Err(r.failure) && View() == old(View())
      ensures r.Ok? ==> EvaluateScheduled(env, old(View()), c, o, ids, startNow, endNow, scopeOk) == Ok((View(), r.value))
      ensures r.Ok? ==> Pipeline.Holds(old(View()), c, startNow) && Pipeline.Holds(View(), c, endNow)
    {
      hide Evaluate, Constrained, FreshFor;
      var owned := LockOwnedClaim(c, startNow);
      if !owned {
        return Err(LeaseLost);
      }
      var (e0, v0, x0, i0) := (evaluations, events, contexts, intents);
      r := RunEvaluation(env, TriggerFor(o, c.ruleId, c.version), o, ids, startNow, scopeOk);
      if r.Err? {
        return;
      }
      owned := LockOwnedClaim(c, endNow);
      if !owned {
        evaluations, events, contexts, intents := e0, v0, x0, i0;
        r := Err(LeaseLost);
      }
    }

    method EvaluateClaimed(env: Env, tr: Trigger, o: Observation, ids: Fresh, now: int, scopeOk: bool) returns (r: Result<Outcome>)
      requires Constrained(View()) && FreshFor(View(), ids)
      modifies this`evaluations, this`events, this`contexts, this`intents
      ensures r.Err? ==> Evaluate(env, old(View()), tr, o, ids, now, scopeOk) == Err(r.failure)
      ensures r.Ok? ==> Evaluate(env, old(View()), tr, o, ids, now, scopeOk) == Ok((View(), r.value))
    {
      hide ClaimEvaluation, Materialize, EvaluateRule, Constrained;
      var claim := ClaimRuleEvaluation(env, tr, o, ids.evaluation);
      if claim.Err? {
        return Err(claim.failure);
      }
      var (id, created) := claim.value;
      if id !in evaluations {
        return Err(VersionVanished);
      }
      if !created {
        var outcome := evaluations[id].outcome;
        if outcome.Observed? {
          return Err(IncompleteEvaluation);
        }
        var there := HasContext(id);
        return if outcome.WasMatched? && !there then Err(MissingContext) else Ok(outcome);
      }
      if (tr.ruleId, tr.ruleVersion) !in versions {
        return Err(VersionVanished);
      }
      var decision := EvaluateRule(env, versions[(tr.ruleId, tr.ruleVersion)], o, id);
      if decision.Matched? {
        var failure := MaterializeAlert(env, decision.candidate, ids, now, scopeOk);
        return if failure.Some? then Err(failure.value) else Ok(WasMatched);
      }
      evaluations := evaluations[id := evaluations[id].(outcome := OutcomeOf(decision))];
      return Ok(OutcomeOf(decision));
    }

    method HasContext(evaluationId: string) returns (there: bool)
      ensures there <==> exists x :: x in contexts && contexts[x].evaluationId == evaluationId
    {
      var todo := contexts.Keys;
      while todo != {}
        invariant todo <= contexts.Keys && forall x | x in contexts.Keys - todo :: contexts[x].evaluationId != evaluationId
        decreases |todo|
      {
        var x :| x in todo;
        if contexts[x].evaluationId == evaluationId {
          return true;
        }
        todo := todo - {x};
      }
      there := false;
    }
  }

  lemma ClaimKeepsUnique(env: Env, t: Tables, r: Schedule.Rule, v: Version, o: Observation, id: string)
    requires UniqueEvaluations(t.evaluations) && FindEvaluation(t, r.tenant, ObservationKey(env, v, o)).None?
    ensures UniqueEvaluations(t.evaluations[id := ObservedRow(env, r, v, o, id)])
  {
    hide ObservationKey;
    forall e | e in t.evaluations ensures !(t.evaluations[e].tenant == r.tenant && t.evaluations[e].key == ObservationKey(env, v, o)) {
      assert !KeyedBy(t, e, r.tenant, ObservationKey(env, v, o));
    }
  }

  /** The identifiers that materialization inserts are new. */
  ghost predicate FreshIds(t: Tables, ids: Fresh) {
    && |ids.intents| == |SINKS| && ids.event !in t.events && ids.context !in t.contexts
    && (forall k | 0 <= k < |ids.intents| :: ids.intents[k] !in t.intents)
    && (forall j, k | 0 <= j < k < |ids.intents| :: ids.intents[j] != ids.intents[k])
  }

  lemma AddressFree(intents: map<string, Delivery.Intent>, i: Delivery.Intent, s: Sink)
    requires i.channel == s.channel && i.destination == s.destination && FindIntent(intents, i.contextId, s).None?
    ensures forall x | x in intents :: !SameAddress(intents[x], i) && !SameAddress(i, intents[x])
  {
    forall x | x in intents ensures !SameAddress(intents[x], i) && !SameAddress(i, intents[x]) {
      assert !Addressed(intents, x, i.contextId, s);
    }
  }

  lemma AddressOfIntent(ev: EvaluationRow, contextId: string, eventId: string, s: Sink, now: int)
    ensures var i := IntentFor(ev, contextId, eventId, s, now); i.contextId == contextId && i.channel == s.channel && i.destination == s.destination
  {
  }

  lemma FoundIsThere(intents: map<string, Delivery.Intent>, contextId: string, s: Sink)
    ensures FindIntent(intents, contextId, s).Some? ==> FindIntent(intents, contextId, s).value in intents
  {
  }

  lemma FoundEventIsThere(events: map<string, Event>, alertKey: string)
    ensures FindEvent(events, alertKey).Some? ==> FindEvent(events, alertKey).value in events
  {
  }

  lemma FoundContextIsThere(contexts: map<string, Context>, eventId: string)
    ensures FindContext(contexts, eventId).Some? ==> FindContext(contexts, eventId).value in contexts
  {
  }
}
