/** Every observation takes effect exactly once, over all interleavings of triggers, replays, edits and deliveries. */
module ExactlyOnce {
  import opened Json
  import opened Evaluation
  import opened Materialization
  import opened Pipeline
  import Schedule
  import Delivery

  // ---------------------------------------------------------------- one claim

  lemma KeyOfObservedRow(env: Env, r: Schedule.Rule, v: Version, o: Observation, id: string)
    ensures ObservedRow(env, r, v, o, id).key == env.hash(KeyJson(ObservedRow(env, r, v, o, id)))
  {}

  /** No row of this tenant has this key. */
  ghost predicate FreeKey(t: Tables, row: EvaluationRow) {
    forall e | e in t.evaluations :: !(t.evaluations[e].tenant == row.tenant && t.evaluations[e].key == row.key)
  }

  /** Some matched row has this key already. */
  ghost predicate Taken(evaluations: map<string, EvaluationRow>, key: string) {
    exists e :: e in evaluations && evaluations[e].outcome.WasMatched? && evaluations[e].key == key
  }

  /** A claim that creates a row creates the only one of its tenant with that key. */
  lemma CreatedKeyIsNew(env: Env, t: Tables, tr: Trigger, o: Observation, id: string)
    requires Settled(env, t) && id !in t.evaluations
    requires ClaimEvaluation(env, t, tr, o, id).Ok? && ClaimEvaluation(env, t, tr, o, id).value.2
    ensures
      var row := ObservedRow(env, t.rules[tr.ruleId], t.versions[(tr.ruleId, tr.ruleVersion)], o, id);
      && ClaimEvaluation(env, t, tr, o, id).value == (t.(evaluations := t.evaluations[id := row]), id, true)
      && row == StoredEvaluation(env, t.versions[(tr.ruleId, tr.ruleVersion)], o, id)
      && FreeKey(t, row)
  {
    hide CharsSize, ValidObservation;
    var (r, v) := (t.rules[tr.ruleId], t.versions[(tr.ruleId, tr.ruleVersion)]);
    var row := ObservedRow(env, r, v, o, id);
    KeyOfObservedRow(env, r, v, o, id);
    forall e | e in t.evaluations ensures !(t.evaluations[e].tenant == row.tenant && t.evaluations[e].key == row.key) {
      assert !KeyedBy(t, e, r.tenant, row.key);
    }
  }

  // ---------------------------------------------------------------- one materialization

  lemma FindUniqueEvent(events: map<string, Event>, id: string)
    requires id in events && forall v | v in events :: events[v].alertKey == events[id].alertKey ==> v == id
    ensures FindEvent(events, events[id].alertKey) == Some(id)
  {}

  lemma FindUniqueContext(contexts: map<string, Context>, id: string)
    requires id in contexts && forall v | v in contexts :: contexts[v].eventId == contexts[id].eventId ==> v == id
    ensures FindContext(contexts, contexts[id].eventId) == Some(id)
  {}

  lemma FindUniqueIntent(intents: map<string, Delivery.Intent>, id: string, x: string, s: Sink)
    requires Addressed(intents, id, x, s) && forall i :: Addressed(intents, i, x, s) ==> i == id
    ensures FindIntent(intents, x, s) == Some(id)
  {}

  /** For a context without intents, the sink loop adds one fresh pending intent per destination. */
  lemma {:induction false} IntentsInserted(intents: map<string, Delivery.Intent>, ids: seq<string>, sinks: seq<Sink>, ev: EvaluationRow,
                                           x: Context, contextId: string, now: int)
    requires |ids| == |sinks|
    requires forall k | 0 <= k < |ids| :: ids[k] !in intents
    requires forall j, k | 0 <= j < k < |ids| :: ids[j] != ids[k]
    requires forall j, k | 0 <= j < k < |sinks| :: (sinks[j].channel, sinks[j].destination) != (sinks[k].channel, sinks[k].destination)
    requires forall i, k | i in intents && 0 <= k < |sinks| :: !Addressed(intents, i, contextId, sinks[k])
    requires x.ownership == OwnershipOf(ev) && x.root == ev.root
    ensures
      var r := InsertIntents(intents, ids, sinks, ev, x, contextId, now);
      && r.Some?
      && (forall i | i in intents :: i in r.value && r.value[i] == intents[i])
      && (forall i | i in r.value :: i in intents || exists k :: 0 <= k < |ids| && i == ids[k])
      && (forall k | 0 <= k < |ids| :: ids[k] in r.value && r.value[ids[k]] == IntentFor(ev, contextId, x.eventId, sinks[k], now))
    decreases |sinks|
  {
    if sinks != [] {
      var s := sinks[0];
      var i := IntentFor(ev, contextId, x.eventId, s, now);
      var after := UpsertIntent(intents, ids[0], i, s);
      assert after == intents[ids[0] := i];
      FindUniqueIntent(after, ids[0], contextId, s);
      IntentsInserted(after, ids[1..], sinks[1..], ev, x, contextId, now);
      var r := InsertIntents(after, ids[1..], sinks[1..], ev, x, contextId, now);
      forall k | 0 <= k < |ids| ensures ids[k] in r.value && r.value[ids[k]] == IntentFor(ev, contextId, x.eventId, sinks[k], now) {
        if k == 0 {
          assert ids[0] in after;
        } else {
          assert ids[1..][k - 1] == ids[k] && sinks[1..][k - 1] == sinks[k];
        }
      }
      forall j | j in r.value ensures j in intents || exists k :: 0 <= k < |ids| && j == ids[k] {
        if j !in after {
          var k :| 0 <= k < |ids[1..]| && j == ids[1..][k];
          assert j == ids[k + 1];
        }
      }
    }
  }

  /** The tables after a fresh match: one event, one context, one intent per sink, nothing else touched. */
  ghost predicate FreshEffect(t: Tables, after: Tables, row: EvaluationRow, c: Candidate, ids: Fresh, now: int)
    requires |ids.intents| == |SINKS|
  {
    var ev := row.(outcome := WasMatched);
    var x := ContextFor(ev, c, ids.event);
    && after.rules == t.rules && after.versions == t.versions
    && after.evaluations == t.evaluations[row.id := ev]
    && after.events == t.events[ids.event := EventFor(c, ev.owner)]
    && after.contexts == t.contexts[ids.context := x]
    && (forall i | i in t.intents :: i in after.intents && after.intents[i] == t.intents[i])
    && (forall i | i in after.intents :: i in t.intents || exists k :: 0 <= k < |SINKS| && i == ids.intents[k])
    && (forall k | 0 <= k < |SINKS| ::
          ids.intents[k] in after.intents && after.intents[ids.intents[k]] == IntentFor(ev, ids.context, ids.event, SINKS[k], now))
  }

  lemma SinksDistinct()
    ensures forall j, k | 0 <= j < k < |SINKS| :: (SINKS[j].channel, SINKS[j].destination) != (SINKS[k].channel, SINKS[k].destination)
    ensures forall k | 0 <= k < |SINKS| :: 1 <= SINKS[k].max <= 5
  {
    assert SINKS[0].channel != SINKS[1].channel;
  }

  /**
   Materializing the match of a row claimed in the same transaction: it fails on a self-referential detail, the
   run-scope query or a key that a matched row has already, and leaves exactly the fresh effect otherwise.
   */
  lemma MaterializeFresh(env: Env, t: Tables, t1: Tables, v: Version, o: Observation, ids: Fresh, now: int, scopeOk: bool)
    requires Sound(env) && Settled(env, t) && FreshFor(t, ids) && ValidObservation(env, o)
    requires (v.ruleId, v.version) in t.versions && t.versions[(v.ruleId, v.version)] == v
    requires
      var row := StoredEvaluation(env, v, o, ids.evaluation);
      t1 == t.(evaluations := t.evaluations[ids.evaluation := row]) && FreeKey(t, row)
    requires EvaluateRule(env, v, o, ids.evaluation).Matched?
    ensures
      var row := StoredEvaluation(env, v, o, ids.evaluation);
      var c := EvaluateRule(env, v, o, ids.evaluation).candidate;
      var r := Materialize(env, t1, c, ids, now, scopeOk);
      if ShapeOf(env, o).Full? && SelfReferential(env, o.detail) then r == Err(CandidateMismatch)
      else if c.runId.Some? && !scopeOk then r == Err(RunScopeRejected)
      else if Taken(t.evaluations, row.key) then r.Err? && Collides(r.failure)
      else r.Ok? && FreshEffect(t1, r.value, row, c, ids, now)
  {
    var row := StoredEvaluation(env, v, o, ids.evaluation);
    var d := EvaluateRule(env, v, o, ids.evaluation);
    var c := d.candidate;
    assert c.evaluationId == ids.evaluation && c.alertKey == AlertKey(row) && c.root == o.root && c.hops == o.hops;
    MatchedCandidateValid(env, v, o, ids.evaluation);
    CheckerAcceptsProducer(env, v, o, row);
    hide CharsSize, CandidateMatches, ValidCandidate, EvaluateRule, StoredEvaluation, ValidObservation, ShapeOf, SelfReferential;
    MaterializeAccepted(env, t, t1, row, c, ids, now, scopeOk);
  }

  lemma AlertKeysDiffer(a: EvaluationRow, b: EvaluationRow)
    requires a.key != b.key
    ensures AlertKey(a) != AlertKey(b)
  {
    assert AlertKey(a)[3..] == a.key && AlertKey(b)[3..] == b.key;
  }

  lemma NoEventYet(evaluations: map<string, EvaluationRow>, events: map<string, Event>, row: EvaluationRow)
    requires EventsOwned(evaluations, events) && !Taken(evaluations, row.key)
    ensures forall v | v in events :: events[v].alertKey != AlertKey(row)
  {
    forall v | v in events ensures events[v].alertKey != AlertKey(row) {
      var e :| Causes(evaluations, e, events[v]);
      assert evaluations[e].key != row.key;
      AlertKeysDiffer(evaluations[e], row);
    }
  }

  /** The refusals that come before anything is written. */
  lemma MaterializeRefused(env: Env, t: Tables, t1: Tables, row: EvaluationRow, c: Candidate, ids: Fresh, now: int, scopeOk: bool)
    requires |ids.intents| == |SINKS| && t1 == t.(evaluations := t.evaluations[ids.evaluation := row])
    requires row.id == ids.evaluation == c.evaluationId && (row.ruleId, row.ruleVersion) in t.versions && ValidCandidate(c)
    ensures
      var r := Materialize(env, t1, c, ids, now, scopeOk);
      if !CandidateMatches(env, row, t.versions[(row.ruleId, row.ruleVersion)], c) then r == Err(CandidateMismatch)
      else c.runId.Some? && !scopeOk ==> r == Err(RunScopeRejected)
  {
    hide CharsSize, CandidateMatches, ValidCandidate, InsertIntents, UpsertEvent, UpsertContext, FindEvent, FindContext;
  }

  /** An accepted match in scope whose key no matched row has. */
  lemma MaterializeFree(env: Env, t: Tables, t1: Tables, row: EvaluationRow, c: Candidate, ids: Fresh, now: int, scopeOk: bool)
    requires Settled(env, t) && FreshFor(t, ids)
    requires t1 == t.(evaluations := t.evaluations[ids.evaluation := row]) && row.id == ids.evaluation == c.evaluationId
    requires (row.ruleId, row.ruleVersion) in t.versions && !Taken(t.evaluations, row.key)
    requires ValidCandidate(c) && c.alertKey == AlertKey(row) && c.root == row.root && c.hops == row.hops
    requires CandidateMatches(env, row, t.versions[(row.ruleId, row.ruleVersion)], c) && (c.runId.Some? ==> scopeOk)
    ensures var r := Materialize(env, t1, c, ids, now, scopeOk); r.Ok? && FreshEffect(t1, r.value, row, c, ids, now)
  {
    hide CharsSize, CandidateMatches, ValidCandidate, ContextPayload, KeyJson, RowsKeyed, MatchedHasEffect, SINKS, Taken,
         EventsOwned, ContextsOwned, IntentsOwned, UpsertEvent, UpsertContext, InsertIntents, IntentFor, UniqueKeys, VersionsStored, RulesLive;
    var ev := row.(outcome := WasMatched);
    var x := ContextFor(ev, c, ids.event);
    EventStage(t.evaluations, t.events, row, EventFor(c, ev.owner), ids.event);
    ContextStage(t.evaluations, t.events, t.contexts, x, ids);
    IntentStage(t, ev, x, ids, now);
    assert ContextMatches(x, ids.event, ev, c);
  }

  lemma MaterializeAccepted(env: Env, t: Tables, t1: Tables, row: EvaluationRow, c: Candidate, ids: Fresh, now: int, scopeOk: bool)
    requires Settled(env, t) && FreshFor(t, ids)
    requires t1 == t.(evaluations := t.evaluations[ids.evaluation := row]) && row.id == ids.evaluation == c.evaluationId
    requires (row.ruleId, row.ruleVersion) in t.versions
    requires ValidCandidate(c) && c.alertKey == AlertKey(row) && c.root == row.root && c.hops == row.hops
    ensures
      var r := Materialize(env, t1, c, ids, now, scopeOk);
      if !CandidateMatches(env, row, t.versions[(row.ruleId, row.ruleVersion)], c) then r == Err(CandidateMismatch)
      else if c.runId.Some? && !scopeOk then r == Err(RunScopeRejected)
      else if Taken(t.evaluations, row.key) then r.Err? && Collides(r.failure)
      else r.Ok? && FreshEffect(t1, r.value, row, c, ids, now)
  {
    hide CharsSize, CandidateMatches, ValidCandidate, Materialize, Settled, Taken, FreshEffect, Collides, AlertKey;
    MaterializeRefused(env, t, t1, row, c, ids, now, scopeOk);
    if CandidateMatches(env, row, t.versions[(row.ruleId, row.ruleVersion)], c) && (c.runId.Some? ==> scopeOk) {
      if Taken(t.evaluations, row.key) {
        TakenCollides(env, t, t1, row, c, ids, now, scopeOk);
      } else {
        MaterializeFree(env, t, t1, row, c, ids, now, scopeOk);
      }
    }
  }

  /** The errors of a match whose event or context belongs to another evaluation. */
  predicate Collides(f: Failure) { f.EventCollision? || f.ContextCollision? }

  /** The event and the context of the matched row that has the key already. */
  lemma TakenEffect(t: Tables, row: EvaluationRow) returns (v: string, x: string)
    requires MatchedHasEffect(t) && EventsOwned(t.evaluations, t.events) && ContextsOwned(t.evaluations, t.events, t.contexts)
    requires Taken(t.evaluations, row.key) && row.id !in t.evaluations
    ensures v in t.events && t.events[v].alertKey == AlertKey(row) && FindEvent(t.events, AlertKey(row)) == Some(v)
    ensures x in t.contexts && t.contexts[x].eventId == v && FindContext(t.contexts, v) == Some(x)
    ensures t.contexts[x].evaluationId != row.id
  {
    hide SINKS, KeyJson;
    var e :| e in t.evaluations && t.evaluations[e].outcome.WasMatched? && t.evaluations[e].key == row.key;
    v, x :| Effect(t, e, v, x);
    FindUniqueEvent(t.events, v);
    FindUniqueContext(t.contexts, x);
  }

  /** A match whose key a matched row has already is refused. */
  lemma TakenCollides(env: Env, t: Tables, t1: Tables, row: EvaluationRow, c: Candidate, ids: Fresh, now: int, scopeOk: bool)
    requires Settled(env, t) && FreshFor(t, ids)
    requires t1 == t.(evaluations := t.evaluations[ids.evaluation := row]) && row.id == ids.evaluation == c.evaluationId
    requires (row.ruleId, row.ruleVersion) in t.versions && ValidCandidate(c) && c.alertKey == AlertKey(row)
    requires Taken(t.evaluations, row.key)
    requires CandidateMatches(env, row, t.versions[(row.ruleId, row.ruleVersion)], c) && (c.runId.Some? ==> scopeOk)
    ensures var r := Materialize(env, t1, c, ids, now, scopeOk); r.Err? && Collides(r.failure)
  {
    hide CharsSize, CandidateMatches, ValidCandidate, ContextPayload, KeyJson, RowsKeyed, MatchedHasEffect, SINKS,
         EventsOwned, ContextsOwned, IntentsOwned, InsertIntents, IntentFor, Taken, FindEvent, FindContext;
    var v, x := TakenEffect(t, row);
    assert UpsertEvent(t.events, ids.event, EventFor(c, row.owner)) == t.events;
    var matched := row.(outcome := WasMatched);
    assert UpsertContext(t.contexts, ids.context, ContextFor(matched, c, v)) == t.contexts;
    assert !ContextMatches(t.contexts[x], v, matched, c);
  }

  lemma EventStage(evaluations: map<string, EvaluationRow>, events: map<string, Event>, row: EvaluationRow, event: Event, id: string)
    requires EventsOwned(evaluations, events) && id !in events && event.alertKey == AlertKey(row)
    requires !Taken(evaluations, row.key)
    ensures UpsertEvent(events, id, event) == events[id := event]
    ensures FindEvent(events[id := event], event.alertKey) == Some(id)
  {
    NoEventYet(evaluations, events, row);
    FindUniqueEvent(events[id := event], id);
  }

  lemma ContextStage(evaluations: map<string, EvaluationRow>, events: map<string, Event>, contexts: map<string, Context>, x: Context, ids: Fresh)
    requires ContextsOwned(evaluations, events, contexts) && ids.context !in contexts
    requires x.eventId !in events && x.evaluationId !in evaluations
    ensures UpsertContext(contexts, ids.context, x) == contexts[ids.context := x]
    ensures FindContext(contexts[ids.context := x], x.eventId) == Some(ids.context)
  {
    FindUniqueContext(contexts[ids.context := x], ids.context);
  }

  lemma IntentStage(t: Tables, ev: EvaluationRow, x: Context, ids: Fresh, now: int)
    requires IntentsOwned(t.contexts, t.intents) && FreshFor(t, ids)
    requires x.ownership == OwnershipOf(ev) && x.root == ev.root
    ensures
      var r := InsertIntents(t.intents, ids.intents, SINKS, ev, x, ids.context, now);
      && r.Some?
      && (forall i | i in t.intents :: i in r.value && r.value[i] == t.intents[i])
      && (forall i | i in r.value :: i in t.intents || exists k :: 0 <= k < |SINKS| && i == ids.intents[k])
      && (forall k | 0 <= k < |SINKS| ::
            ids.intents[k] in r.value && r.value[ids.intents[k]] == IntentFor(ev, ids.context, x.eventId, SINKS[k], now))
  {
    SinksDistinct();
    hide SINKS;
    IntentsInserted(t.intents, ids.intents, SINKS, ev, x, ids.context, now);
  }

  // ---------------------------------------------------------------- the invariant

  /** A fresh effect on settled tables leaves settled tables. */
  lemma FreshEffectSettles(env: Env, t: Tables, after: Tables, row: EvaluationRow, c: Candidate, ids: Fresh, now: int)
    requires Settled(env, t) && FreshFor(t, ids)
    requires row.id == ids.evaluation && row.tenant == row.scope.tenant && row.key == env.hash(KeyJson(row))
    requires FreeKey(t, row) && !Taken(t.evaluations, row.key)
    requires c.alertKey == AlertKey(row)
    requires FreshEffect(t.(evaluations := t.evaluations[ids.evaluation := row]), after, row, c, ids, now)
    ensures Settled(env, after)
  {
    hide KeyJson, ContextPayload, MatchedHasEffect, EventsOwned, ContextsOwned, IntentsOwned, FreshEffect, RulesLive, VersionsStored;
    EvaluationsSettle(env, t, after, row, c, ids, now);
    EventsSettle(t, after, row, c, ids, now);
    ContextsSettle(t, after, row, c, ids, now);
    IntentsSettle(t, after, row, c, ids, now);
    EffectsSettle(t, after, row, c, ids, now);
  }

  lemma EvaluationsSettle(env: Env, t: Tables, after: Tables, row: EvaluationRow, c: Candidate, ids: Fresh, now: int)
    requires RowsKeyed(env, t) && UniqueKeys(t) && VersionsStored(t) && RulesLive(t) && |ids.intents| == |SINKS|
    requires row.id == ids.evaluation && row.tenant == row.scope.tenant && row.key == env.hash(KeyJson(row))
    requires FreeKey(t, row)
    requires FreshEffect(t.(evaluations := t.evaluations[ids.evaluation := row]), after, row, c, ids, now)
    ensures RowsKeyed(env, after) && UniqueKeys(after) && VersionsStored(after) && RulesLive(after)
  {
    assert KeyJson(row.(outcome := WasMatched)) == KeyJson(row);
  }

  lemma EventsSettle(t: Tables, after: Tables, row: EvaluationRow, c: Candidate, ids: Fresh, now: int)
    requires EventsOwned(t.evaluations, t.events) && FreshFor(t, ids) && row.id == ids.evaluation && c.alertKey == AlertKey(row)
    requires !Taken(t.evaluations, row.key)
    requires FreshEffect(t.(evaluations := t.evaluations[ids.evaluation := row]), after, row, c, ids, now)
    ensures EventsOwned(after.evaluations, after.events)
  {
    hide SINKS;
    NoEventYet(t.evaluations, t.events, row);
    forall v | v in after.events ensures exists e :: Causes(after.evaluations, e, after.events[v]) {
      if v == ids.event {
        assert Causes(after.evaluations, row.id, after.events[v]);
      } else {
        var e :| Causes(t.evaluations, e, t.events[v]);
        assert Causes(after.evaluations, e, after.events[v]);
      }
    }
  }

  lemma ContextsSettle(t: Tables, after: Tables, row: EvaluationRow, c: Candidate, ids: Fresh, now: int)
    requires ContextsOwned(t.evaluations, t.events, t.contexts) && FreshFor(t, ids) && row.id == ids.evaluation
    requires FreshEffect(t.(evaluations := t.evaluations[ids.evaluation := row]), after, row, c, ids, now)
    ensures ContextsOwned(after.evaluations, after.events, after.contexts)
  {
    hide SINKS, ContextPayload;
  }

  lemma NewIntentFacts(t: Tables, after: Tables, row: EvaluationRow, c: Candidate, ids: Fresh, now: int, i: string)
    requires FreshFor(t, ids) && i in after.intents && i !in t.intents
    requires FreshEffect(t.(evaluations := t.evaluations[ids.evaluation := row]), after, row, c, ids, now)
    ensures after.intents[i].contextId == ids.context && Delivery.Live(after.intents[i]) && Approved(after.intents[i])
  {
    SinksDistinct();
    hide SINKS, ContextPayload;
    var k :| 0 <= k < |SINKS| && i == ids.intents[k];
    assert SINKS[k] in SINKS;
  }

  /** Intents added under a new context, at addresses of their own, stay owned. */
  lemma OwnedExtension(contexts: map<string, Context>, contexts': map<string, Context>,
                       intents: map<string, Delivery.Intent>, intents': map<string, Delivery.Intent>, x: string)
    requires IntentsOwned(contexts, intents) && x !in contexts && contexts'.Keys == contexts.Keys + {x}
    requires forall i | i in intents :: i in intents' && intents'[i] == intents[i]
    requires forall i | i in intents' && i !in intents :: intents'[i].contextId == x && Delivery.Live(intents'[i]) && Approved(intents'[i])
    requires forall i, j | i in intents' && j in intents' && i !in intents && j !in intents && SameAddress(intents'[i], intents'[j]) :: i == j
    ensures IntentsOwned(contexts', intents')
  {
    hide Approved;
  }

  lemma IntentsSettle(t: Tables, after: Tables, row: EvaluationRow, c: Candidate, ids: Fresh, now: int)
    requires IntentsOwned(t.contexts, t.intents) && FreshFor(t, ids)
    requires FreshEffect(t.(evaluations := t.evaluations[ids.evaluation := row]), after, row, c, ids, now)
    ensures IntentsOwned(after.contexts, after.intents)
  {
    forall i | i in after.intents && i !in t.intents
      ensures after.intents[i].contextId == ids.context && Delivery.Live(after.intents[i]) && Approved(after.intents[i])
    {
      NewIntentFacts(t, after, row, c, ids, now, i);
    }
    forall i, j | i in after.intents && j in after.intents && i !in t.intents && j !in t.intents
                  && SameAddress(after.intents[i], after.intents[j])
      ensures i == j
    {
      NewAddressesDiffer(t, after, row, c, ids, now, i, j);
    }
    assert forall i | i in t.intents :: after.intents[i] == t.intents[i] && t.intents[i].contextId in t.contexts;
    assert after.contexts.Keys == t.contexts.Keys + {ids.context};
    OwnedExtension(t.contexts, after.contexts, t.intents, after.intents, ids.context);
  }

  lemma NewAddressesDiffer(t: Tables, after: Tables, row: EvaluationRow, c: Candidate, ids: Fresh, now: int, i: string, j: string)
    requires FreshFor(t, ids) && i in after.intents && j in after.intents && i !in t.intents && j !in t.intents
    requires FreshEffect(t.(evaluations := t.evaluations[ids.evaluation := row]), after, row, c, ids, now)
    requires SameAddress(after.intents[i], after.intents[j])
    ensures i == j
  {
    SinksDistinct();
    hide SINKS, ContextPayload;
    var k :| 0 <= k < |SINKS| && i == ids.intents[k];
    var l :| 0 <= l < |SINKS| && j == ids.intents[l];
  }

  lemma EffectsSettle(t: Tables, after: Tables, row: EvaluationRow, c: Candidate, ids: Fresh, now: int)
    requires MatchedHasEffect(t) && FreshFor(t, ids) && row.id == ids.evaluation && c.alertKey == AlertKey(row)
    requires FreshEffect(t.(evaluations := t.evaluations[ids.evaluation := row]), after, row, c, ids, now)
    ensures MatchedHasEffect(after)
  {
    hide SINKS, ContextPayload;
    forall e | e in after.evaluations && after.evaluations[e].outcome.WasMatched? ensures exists v, x :: Effect(after, e, v, x) {
      if e == row.id {
        forall s | s in SINKS ensures Reached(after.intents, ids.context, s) {
          var k :| 0 <= k < |SINKS| && SINKS[k] == s;
          assert Addressed(after.intents, ids.intents[k], ids.context, s);
        }
        assert Effect(after, e, ids.event, ids.context);
      } else {
        var v, x :| Effect(t, e, v, x);
        EffectSurvives(t, after, e, v, x);
      }
    }
  }

  /** An effect outlives any change that keeps its rows and the addresses of its intents. */
  lemma EffectSurvives(t: Tables, after: Tables, e: string, v: string, x: string)
    requires Effect(t, e, v, x)
    requires e in after.evaluations && after.evaluations[e].key == t.evaluations[e].key
    requires v in after.events && after.events[v] == t.events[v]
    requires x in after.contexts && after.contexts[x] == t.contexts[x]
    requires forall i | i in t.intents :: i in after.intents && Delivery.SameIdentity(t.intents[i], after.intents[i])
    ensures Effect(after, e, v, x)
  {
    hide SINKS;
    forall s | s in SINKS ensures Reached(after.intents, x, s) {
      assert Reached(t.intents, x, s);
      var i :| Addressed(t.intents, i, x, s);
      assert Addressed(after.intents, i, x, s);
    }
  }

  // ---------------------------------------------------------------- transactions

  /** Committed evaluations, events and contexts never change again; intents keep their identity. */
  ghost predicate Preserves(t: Tables, after: Tables) {
    && (forall e | e in t.evaluations :: e in after.evaluations && after.evaluations[e] == t.evaluations[e])
    && (forall v | v in t.events :: v in after.events && after.events[v] == t.events[v])
    && (forall x | x in t.contexts :: x in after.contexts && after.contexts[x] == t.contexts[x])
    && (forall i | i in t.intents :: i in after.intents && Delivery.SameIdentity(t.intents[i], after.intents[i]))
  }

  /** The evaluation of this observation under this rule version is committed with this outcome. */
  ghost predicate Recorded(env: Env, t: Tables, v: Version, o: Observation, outcome: Outcome) {
    exists e :: KeyedBy(t, e, o.scope.tenant, ObservationKey(env, v, o)) && t.evaluations[e].outcome == outcome
  }

  lemma RowAddedKeepsOwnership(evaluations: map<string, EvaluationRow>, row: EvaluationRow, events: map<string, Event>, contexts: map<string, Context>)
    requires row.id !in evaluations && EventsOwned(evaluations, events) && ContextsOwned(evaluations, events, contexts)
    ensures EventsOwned(evaluations[row.id := row], events) && ContextsOwned(evaluations[row.id := row], events, contexts)
  {
    var after := evaluations[row.id := row];
    forall v | v in events ensures exists e :: Causes(after, e, events[v]) {
      var e :| Causes(evaluations, e, events[v]);
      assert Causes(after, e, events[v]);
    }
  }

  lemma RowAddedKeepsEffects(t: Tables, row: EvaluationRow)
    requires row.id !in t.evaluations && MatchedHasEffect(t) && !row.outcome.WasMatched?
    ensures MatchedHasEffect(t.(evaluations := t.evaluations[row.id := row]))
  {
    hide SINKS;
    var after := t.(evaluations := t.evaluations[row.id := row]);
    forall e | e in after.evaluations && after.evaluations[e].outcome.WasMatched? ensures exists v, x :: Effect(after, e, v, x) {
      var v, x :| Effect(t, e, v, x);
      assert Effect(after, e, v, x);
    }
  }

  lemma RowAddedKeepsKeys(env: Env, t: Tables, row: EvaluationRow)
    requires RowsKeyed(env, t) && UniqueKeys(t) && row.id !in t.evaluations && !row.outcome.Observed?
    requires row.tenant == row.scope.tenant && row.key == env.hash(KeyJson(row))
    requires FreeKey(t, row)
    ensures RowsKeyed(env, t.(evaluations := t.evaluations[row.id := row]))
    ensures UniqueKeys(t.(evaluations := t.evaluations[row.id := row]))
  {
    hide KeyJson;
  }

  /** A decision that is not a match is recorded on the claimed row alone. */
  lemma QuietOutcomeSettles(env: Env, t: Tables, row: EvaluationRow)
    requires Settled(env, t) && row.id !in t.evaluations && row.tenant == row.scope.tenant && row.key == env.hash(KeyJson(row))
    requires FreeKey(t, row)
    requires row.outcome.WasIgnored? || row.outcome.WasRejected?
    ensures
      var after := t.(evaluations := t.evaluations[row.id := row]);
      Settled(env, after) && Preserves(t, after)
  {
    hide SINKS, KeyJson, RowsKeyed, UniqueKeys, EventsOwned, ContextsOwned, IntentsOwned, MatchedHasEffect;
    RowAddedKeepsKeys(env, t, row);
    RowAddedKeepsOwnership(t.evaluations, row, t.events, t.contexts);
    RowAddedKeepsEffects(t, row);
  }

  /**
   One evaluation transaction on settled tables. It can fail only because the claim is refused, the run is out of
   scope, the detail is its own omission marker, or a matched row of another tenant has the same hash: an incomplete
   row, a missing context and a vanished version are unreachable. When it commits, the tables stay settled, nothing committed before changes, the
   decision of the first commit is the recorded outcome, and a repeat changes nothing at all.
   */
  lemma EvaluateFacts(env: Env, t: Tables, tr: Trigger, o: Observation, ids: Fresh, now: int, scopeOk: bool)
    requires Sound(env) && Settled(env, t) && FreshFor(t, ids)
    ensures
      match Evaluate(env, t, tr, o, ids, now, scopeOk)
      case Err(f) =>
        || f.ClaimRejected? || f.RunScopeRejected? || (f.CandidateMismatch? && SelfReferential(env, o.detail))
        || (Collides(f) && (tr.ruleId, tr.ruleVersion) in t.versions
            && Taken(t.evaluations, ObservationKey(env, t.versions[(tr.ruleId, tr.ruleVersion)], o)))
      case Ok((after, outcome)) =>
        && (tr.ruleId, tr.ruleVersion) in t.versions
        && var v := t.versions[(tr.ruleId, tr.ruleVersion)];
        && Settled(env, after) && Preserves(t, after) && after.rules == t.rules && after.versions == t.versions
        && Recorded(env, after, v, o, outcome)
        && (if exists e :: KeyedBy(t, e, o.scope.tenant, ObservationKey(env, v, o)) then after == t
            else outcome == OutcomeOf(EvaluateRule(env, v, o, ids.evaluation)))
  {
    hide CharsSize, ValidObservation, EvaluateRule, Materialize, ObservationKey, Settled, SelfReferential, ShapeOf;
    var claim := ClaimEvaluation(env, t, tr, o, ids.evaluation);
    if claim.Ok? {
      var v := t.versions[(tr.ruleId, tr.ruleVersion)];
      if claim.value.2 {
        CreatedCase(env, t, tr, o, ids, now, scopeOk);
      } else {
        RepeatCase(env, t, tr, o, ids.evaluation);
      }
    }
  }

  lemma RepeatCase(env: Env, t: Tables, tr: Trigger, o: Observation, id: string)
    requires Settled(env, t) && ClaimEvaluation(env, t, tr, o, id).Ok? && !ClaimEvaluation(env, t, tr, o, id).value.2
    ensures
      var (after, e, _) := ClaimEvaluation(env, t, tr, o, id).value;
      && (tr.ruleId, tr.ruleVersion) in t.versions
      && var v := t.versions[(tr.ruleId, tr.ruleVersion)];
      && after == t && KeyedBy(t, e, o.scope.tenant, ObservationKey(env, v, o)) && !t.evaluations[e].outcome.Observed?
      && (t.evaluations[e].outcome.WasMatched? ==> exists x :: x in t.contexts && t.contexts[x].evaluationId == e)
      && Recorded(env, t, v, o, t.evaluations[e].outcome)
  {
    hide CharsSize, ValidObservation, ObservationKey, SINKS;
    var (after, e, _) := ClaimEvaluation(env, t, tr, o, id).value;
    if t.evaluations[e].outcome.WasMatched? {
      var v, x :| Effect(t, e, v, x);
    }
  }

  lemma MatchedCase(env: Env, t: Tables, t1: Tables, v: Version, o: Observation, ids: Fresh, now: int, scopeOk: bool)
    requires Sound(env) && Settled(env, t) && FreshFor(t, ids) && ValidObservation(env, o)
    requires (v.ruleId, v.version) in t.versions && t.versions[(v.ruleId, v.version)] == v
    requires
      var row := StoredEvaluation(env, v, o, ids.evaluation);
      && t1 == t.(evaluations := t.evaluations[ids.evaluation := row]) && row.key == env.hash(KeyJson(row))
      && FreeKey(t, row)
    requires EvaluateRule(env, v, o, ids.evaluation).Matched?
    ensures
      match Materialize(env, t1, EvaluateRule(env, v, o, ids.evaluation).candidate, ids, now, scopeOk)
      case Err(f) =>
        || f.RunScopeRejected? || (f.CandidateMismatch? && SelfReferential(env, o.detail))
        || (Collides(f) && Taken(t.evaluations, ObservationKey(env, v, o)))
      case Ok(after) =>
        && Settled(env, after) && Preserves(t, after) && after.rules == t.rules && after.versions == t.versions
        && Recorded(env, after, v, o, WasMatched)
  {
    var row := StoredEvaluation(env, v, o, ids.evaluation);
    var c := EvaluateRule(env, v, o, ids.evaluation).candidate;
    assert c.alertKey == AlertKey(row);
    assert row.key == ObservationKey(env, v, o) && row.tenant == o.scope.tenant && row.id == ids.evaluation;
    MaterializeFresh(env, t, t1, v, o, ids, now, scopeOk);
    hide CharsSize, ValidObservation, EvaluateRule, Materialize, ObservationKey, Settled, KeyJson, SelfReferential, ShapeOf, StoredEvaluation, FreshEffect;
    var r := Materialize(env, t1, c, ids, now, scopeOk);
    if r.Ok? {
      FreshEffectSettles(env, t, r.value, row, c, ids, now);
      FreshEffectPreserves(t, r.value, row, c, ids, now);
      assert KeyedBy(r.value, row.id, o.scope.tenant, ObservationKey(env, v, o));
    }
  }

  lemma QuietCase(env: Env, t: Tables, row: EvaluationRow, v: Version, o: Observation, outcome: Outcome)
    requires Settled(env, t) && row == StoredEvaluation(env, v, o, row.id) && row.id !in t.evaluations
    requires row.key == env.hash(KeyJson(row)) && FreeKey(t, row)
    requires outcome.WasIgnored? || outcome.WasRejected?
    ensures
      var after := t.(evaluations := t.evaluations[row.id := row.(outcome := outcome)]);
      Settled(env, after) && Preserves(t, after) && Recorded(env, after, v, o, outcome)
  {
    var done := row.(outcome := outcome);
    assert KeyJson(done) == KeyJson(row);
    hide Settled, KeyJson, CharsSize;
    QuietOutcomeSettles(env, t, done);
    assert KeyedBy(t.(evaluations := t.evaluations[row.id := done]), row.id, o.scope.tenant, ObservationKey(env, v, o));
  }

  /** The row that a created claim stored, and the key nobody had. */
  lemma CreatedRow(env: Env, t: Tables, tr: Trigger, o: Observation, id: string)
    requires Settled(env, t) && id !in t.evaluations
    requires ClaimEvaluation(env, t, tr, o, id).Ok? && ClaimEvaluation(env, t, tr, o, id).value.2
    ensures ValidObservation(env, o) && (tr.ruleId, tr.ruleVersion) in t.versions
    ensures
      var v := t.versions[(tr.ruleId, tr.ruleVersion)];
      var row := StoredEvaluation(env, v, o, id);
      && v.ruleId == tr.ruleId && v.version == tr.ruleVersion && row.id == id
      && ClaimEvaluation(env, t, tr, o, id) == Ok((t.(evaluations := t.evaluations[id := row]), id, true))
      && row.key == env.hash(KeyJson(row)) && FreeKey(t, row)
      && !(exists e :: KeyedBy(t, e, o.scope.tenant, ObservationKey(env, v, o)))
  {
    CreatedKeyIsNew(env, t, tr, o, id);
    KeyOfObservedRow(env, t.rules[tr.ruleId], t.versions[(tr.ruleId, tr.ruleVersion)], o, id);
    hide CharsSize, ValidObservation, KeyJson;
  }

  lemma CreatedCase(env: Env, t: Tables, tr: Trigger, o: Observation, ids: Fresh, now: int, scopeOk: bool)
    requires Sound(env) && Settled(env, t) && FreshFor(t, ids)
    requires ClaimEvaluation(env, t, tr, o, ids.evaluation).Ok? && ClaimEvaluation(env, t, tr, o, ids.evaluation).value.2
    ensures
      var v := t.versions[(tr.ruleId, tr.ruleVersion)];
      && !(exists e :: KeyedBy(t, e, o.scope.tenant, ObservationKey(env, v, o)))
      && match Evaluate(env, t, tr, o, ids, now, scopeOk)
         case Err(f) =>
           || f.RunScopeRejected? || (f.CandidateMismatch? && SelfReferential(env, o.detail))
           || (Collides(f) && Taken(t.evaluations, ObservationKey(env, v, o)))
         case Ok((after, outcome)) =>
           && Settled(env, after) && Preserves(t, after) && after.rules == t.rules && after.versions == t.versions
           && Recorded(env, after, v, o, outcome)
           && outcome == OutcomeOf(EvaluateRule(env, v, o, ids.evaluation))
  {
    CreatedRow(env, t, tr, o, ids.evaluation);
    var v := t.versions[(tr.ruleId, tr.ruleVersion)];
    var row := StoredEvaluation(env, v, o, ids.evaluation);
    var t1 := t.(evaluations := t.evaluations[ids.evaluation := row]);
    EvaluateAfterClaim(env, t, tr, o, ids, now, scopeOk, row, t1);
    hide CharsSize, ValidObservation, EvaluateRule, Materialize, ObservationKey, Settled, KeyJson, SelfReferential, ShapeOf, StoredEvaluation,
         ClaimEvaluation, Evaluate, FreshFor, Recorded, Preserves, KeyedBy;
    if EvaluateRule(env, v, o, ids.evaluation).Matched? {
      MatchedCase(env, t, t1, v, o, ids, now, scopeOk);
    } else {
      QuietCase(env, t, row, v, o, OutcomeOf(EvaluateRule(env, v, o, ids.evaluation)));
    }
  }

  /**
   The fate of a created claim, case by case. A decision that is not a match is recorded on the new row alone. A match
   has exactly its fresh effect unless its whole detail is its own omission marker, its run is out of scope, or a
   matched row has its key already, and then it fails with that error.
   */
  lemma CreatedOutcome(env: Env, t: Tables, tr: Trigger, o: Observation, ids: Fresh, now: int, scopeOk: bool)
    requires Sound(env) && Settled(env, t) && FreshFor(t, ids)
    requires ClaimEvaluation(env, t, tr, o, ids.evaluation).Ok? && ClaimEvaluation(env, t, tr, o, ids.evaluation).value.2
    ensures
      var v := t.versions[(tr.ruleId, tr.ruleVersion)];
      var d := EvaluateRule(env, v, o, ids.evaluation);
      var row := StoredEvaluation(env, v, o, ids.evaluation);
      var r := Evaluate(env, t, tr, o, ids, now, scopeOk);
      if !d.Matched? then r == Ok((t.(evaluations := t.evaluations[row.id := row.(outcome := OutcomeOf(d))]), OutcomeOf(d)))
      else if ShapeOf(env, o).Full? && SelfReferential(env, o.detail) then r == Err(CandidateMismatch)
      else if d.candidate.runId.Some? && !scopeOk then r == Err(RunScopeRejected)
      else if Taken(t.evaluations, ObservationKey(env, v, o)) then r.Err? && Collides(r.failure)
      else r.Ok? && r.value.1 == WasMatched
           && FreshEffect(t.(evaluations := t.evaluations[row.id := row]), r.value.0, row, d.candidate, ids, now)
  {
    CreatedRow(env, t, tr, o, ids.evaluation);
    var v := t.versions[(tr.ruleId, tr.ruleVersion)];
    var row := StoredEvaluation(env, v, o, ids.evaluation);
    assert row.key == ObservationKey(env, v, o);
    var t1 := t.(evaluations := t.evaluations[ids.evaluation := row]);
    EvaluateAfterClaim(env, t, tr, o, ids, now, scopeOk, row, t1);
    hide CharsSize, ValidObservation, EvaluateRule, Materialize, ObservationKey, Settled, KeyJson, SelfReferential, ShapeOf, StoredEvaluation,
         ClaimEvaluation, Evaluate, FreshFor, KeyedBy, Taken, FreeKey, FreshEffect;
    if EvaluateRule(env, v, o, ids.evaluation).Matched? {
      MaterializeFresh(env, t, t1, v, o, ids, now, scopeOk);
    }
  }

  /** A row of another tenant with the same key but another identity: two identities that hash alike. */
  ghost predicate HashTwin(env: Env, t: Tables, row: EvaluationRow, e: string) {
    && e in t.evaluations && t.evaluations[e].tenant != row.tenant
    && KeyJson(t.evaluations[e]) != KeyJson(row) && env.hash(KeyJson(t.evaluations[e])) == env.hash(KeyJson(row))
  }

  lemma TakenByTwin(env: Env, t: Tables, row: EvaluationRow) returns (e: string)
    requires RowsKeyed(env, t) && FreeKey(t, row) && row.key == env.hash(KeyJson(row)) && row.tenant == row.scope.tenant
    requires Taken(t.evaluations, row.key)
    ensures HashTwin(env, t, row, e)
  {
    hide KeyJson;
    e :| e in t.evaluations && t.evaluations[e].outcome.WasMatched? && t.evaluations[e].key == row.key;
    SameIdentityOneTenant(t.evaluations[e], row);
  }

  lemma StoredKey(env: Env, v: Version, o: Observation, id: string)
    ensures var row := StoredEvaluation(env, v, o, id); row.key == ObservationKey(env, v, o) && row.tenant == row.scope.tenant
  {}

  lemma SettledRows(env: Env, t: Tables)
    requires Settled(env, t)
    ensures RowsKeyed(env, t)
  {}

  /** A key is taken only by another tenant's row, and only where two different observation identities hash alike. */
  lemma TakenMeansHashCollision(env: Env, t: Tables, tr: Trigger, o: Observation, id: string)
    requires Settled(env, t) && id !in t.evaluations
    requires ClaimEvaluation(env, t, tr, o, id).Ok? && ClaimEvaluation(env, t, tr, o, id).value.2
    requires Taken(t.evaluations, ObservationKey(env, t.versions[(tr.ruleId, tr.ruleVersion)], o))
    ensures exists e :: HashTwin(env, t, StoredEvaluation(env, t.versions[(tr.ruleId, tr.ruleVersion)], o, id), e)
  {
    hide *;
    CreatedRow(env, t, tr, o, id);
    var v := t.versions[(tr.ruleId, tr.ruleVersion)];
    var row := StoredEvaluation(env, v, o, id);
    StoredKey(env, v, o, id);
    SettledRows(env, t);
    var e := TakenByTwin(env, t, row);
  }

  /** Equal identities come from equal scopes, so from one tenant. */
  lemma SameIdentityOneTenant(a: EvaluationRow, b: EvaluationRow)
    ensures KeyJson(a) == KeyJson(b) ==> a.scope == b.scope
  {
    if KeyJson(a) == KeyJson(b) {
      assert KeyJson(a).items[4] == KeyJson(b).items[4];
      ScopeJsonInjective(a.scope, b.scope);
    }
  }

  /** What the transaction does after a claim that created its row. */
  lemma EvaluateAfterClaim(env: Env, t: Tables, tr: Trigger, o: Observation, ids: Fresh, now: int, scopeOk: bool, row: EvaluationRow, t1: Tables)
    requires |ids.intents| == |SINKS| && ClaimEvaluation(env, t, tr, o, ids.evaluation) == Ok((t1, ids.evaluation, true))
    requires (tr.ruleId, tr.ruleVersion) in t1.versions
    requires t1 == t.(evaluations := t.evaluations[ids.evaluation := row])
    ensures
      var d := EvaluateRule(env, t1.versions[(tr.ruleId, tr.ruleVersion)], o, ids.evaluation);
      Evaluate(env, t, tr, o, ids, now, scopeOk) ==
        if d.Matched? then
          (match Materialize(env, t1, d.candidate, ids, now, scopeOk)
           case Err(f) => Err(f)
           case Ok(t2) => Ok((t2, WasMatched)))
        else
          Ok((t.(evaluations := t.evaluations[ids.evaluation := t1.evaluations[ids.evaluation].(outcome := OutcomeOf(d))]), OutcomeOf(d)))
  {
    hide ClaimEvaluation, EvaluateRule, Materialize;
    var d := EvaluateRule(env, t1.versions[(tr.ruleId, tr.ruleVersion)], o, ids.evaluation);
    assert t1.evaluations[ids.evaluation := row.(outcome := OutcomeOf(d))] == t.evaluations[ids.evaluation := row.(outcome := OutcomeOf(d))];
  }

  lemma FreshEffectPreserves(t: Tables, after: Tables, row: EvaluationRow, c: Candidate, ids: Fresh, now: int)
    requires FreshFor(t, ids) && row.id == ids.evaluation
    requires FreshEffect(t.(evaluations := t.evaluations[ids.evaluation := row]), after, row, c, ids, now)
    ensures Preserves(t, after) && after.rules == t.rules && after.versions == t.versions
    ensures row.id in after.evaluations && after.evaluations[row.id] == row.(outcome := WasMatched)
  {
    hide SINKS, ContextPayload;
  }

  // ---------------------------------------------------------------- runs

  /** Everything that can touch the tables. */
  datatype Action =
    | ScheduledEvaluation(claim: Schedule.Claim, o: Observation, ids: Fresh, startNow: int, endNow: int, scopeOk: bool)
    | CompletedRunEvaluation(ruleId: string, ruleVersion: int, o: Observation, ids: Fresh, now: int, scopeOk: bool)
    | ScheduleStatement(ruleId: string, step: Schedule.Step)
    | EditRule(ruleId: string, patch: Schedule.Patch, version: Version)
    | CreateRule(ruleId: string, rule: Schedule.Rule, version: Version)
    | DeliveryStatement(intentId: string, delivery: Delivery.Step)

  ghost predicate NewVersion(t: Tables, ruleId: string, n: int, v: Version) {
    (ruleId, n) !in t.versions && v.ruleId == ruleId && v.version == n && StoredVersion(v) && NoNul(v.ruleId) && v.owner != ""
  }

  /** The committed tables after one transaction; a failed one leaves them as they were. */
  ghost function Act(env: Env, t: Tables, a: Action): Tables
    requires a.ScheduledEvaluation? || a.CompletedRunEvaluation? ==> |a.ids.intents| == |SINKS|
  {
    match a
    case ScheduledEvaluation(c, o, ids, startNow, endNow, scopeOk) =>
      (match EvaluateScheduled(env, t, c, o, ids, startNow, endNow, scopeOk) case Ok((after, _)) => after case Err(_) => t)
    case CompletedRunEvaluation(ruleId, version, o, ids, now, scopeOk) =>
      (match Evaluate(env, t, TriggerFor(o, ruleId, version), o, ids, now, scopeOk) case Ok((after, _)) => after case Err(_) => t)
    case ScheduleStatement(ruleId, step) =>
      if ruleId in t.rules && !step.UpdateStep? then t.(rules := t.rules[ruleId := Schedule.Next(t.rules[ruleId], step)]) else t
    case EditRule(ruleId, patch, v) =>
      if ruleId in t.rules && Schedule.Updated(t.rules[ruleId], patch).Some? && NewVersion(t, ruleId, t.rules[ruleId].version + 1, v) then
        t.(rules := t.rules[ruleId := Schedule.Next(t.rules[ruleId], Schedule.UpdateStep(patch))],
           versions := t.versions[(ruleId, v.version) := v])
      else t
    case CreateRule(ruleId, rule, v) =>
      if ruleId !in t.rules && Schedule.NewRule(rule) && NewVersion(t, ruleId, 1, v) then
        t.(rules := t.rules[ruleId := rule], versions := t.versions[(ruleId, 1) := v])
      else t
    case DeliveryStatement(id, step) =>
      if id in t.intents then t.(intents := t.intents[id := Delivery.Next(env, t.intents[id], step)]) else t
  }

  ghost predicate Enabled(t: Tables, a: Action) {
    a.ScheduledEvaluation? || a.CompletedRunEvaluation? ==> FreshFor(t, a.ids)
  }

  ghost predicate AllEnabled(env: Env, t: Tables, actions: seq<Action>)
    decreases |actions|
  {
    actions == [] || (Enabled(t, actions[0]) && AllEnabled(env, Act(env, t, actions[0]), actions[1..]))
  }

  ghost function Run(env: Env, t: Tables, actions: seq<Action>): Tables
    requires AllEnabled(env, t, actions)
    decreases |actions|
  {
    if actions == [] then t else Run(env, Act(env, t, actions[0]), actions[1..])
  }

  lemma SameRowsKeepEffects(t: Tables, after: Tables)
    requires MatchedHasEffect(t) && after.evaluations == t.evaluations && after.events == t.events && after.contexts == t.contexts
    requires forall i | i in t.intents :: i in after.intents && Delivery.SameIdentity(t.intents[i], after.intents[i])
    ensures MatchedHasEffect(after)
  {
    hide SINKS, Delivery.SameIdentity;
    forall e | e in after.evaluations && after.evaluations[e].outcome.WasMatched? ensures exists v, x :: Effect(after, e, v, x) {
      var v, x :| Effect(t, e, v, x);
      EffectSurvives(t, after, e, v, x);
    }
  }

  lemma RuleChangeSettles(env: Env, t: Tables, rules: map<string, Schedule.Rule>, versions: map<(string, int), Version>)
    requires Settled(env, t) && RulesLive(t.(rules := rules)) && VersionsStored(t.(versions := versions))
    ensures Settled(env, t.(rules := rules, versions := versions)) && Preserves(t, t.(rules := rules, versions := versions))
  {
    hide SINKS, KeyJson, EventsOwned, ContextsOwned, IntentsOwned, MatchedHasEffect;
    var after := t.(rules := rules, versions := versions);
    SameRowsKeepEffects(t, after);
  }

  lemma DeliverySettles(env: Env, t: Tables, id: string, step: Delivery.Step)
    requires Settled(env, t) && id in t.intents
    ensures
      var after := t.(intents := t.intents[id := Delivery.Next(env, t.intents[id], step)]);
      Settled(env, after) && Preserves(t, after)
  {
    hide Delivery.Next, Delivery.Live, EventsOwned, ContextsOwned, IntentsOwned, MatchedHasEffect, RowsKeyed, UniqueKeys, RulesLive,
         VersionsStored, Delivery.SameIdentity;
    var i := Delivery.Next(env, t.intents[id], step);
    StepOnIntent(env, t.contexts, t.intents, id, step);
    SameRowsKeepEffects(t, t.(intents := t.intents[id := i]));
    DeliveredIntentOwned(t.contexts, t.intents, id, i);
    assert RowsKeyed(env, t.(intents := t.intents[id := i])) && UniqueKeys(t.(intents := t.intents[id := i]))
           && RulesLive(t.(intents := t.intents[id := i])) && VersionsStored(t.(intents := t.intents[id := i])) by {
      OtherTablesStand(env, t, t.(intents := t.intents[id := i]));
    }
  }

  lemma OtherTablesStand(env: Env, t: Tables, after: Tables)
    requires RowsKeyed(env, t) && UniqueKeys(t) && RulesLive(t) && VersionsStored(t)
    requires after.evaluations == t.evaluations && after.rules == t.rules && after.versions == t.versions
    ensures RowsKeyed(env, after) && UniqueKeys(after) && RulesLive(after) && VersionsStored(after)
  {
    hide KeyJson, StoredVersion, Schedule.Live;
  }

  lemma StepOnIntent(env: Env, contexts: map<string, Context>, intents: map<string, Delivery.Intent>, id: string, step: Delivery.Step)
    requires IntentsOwned(contexts, intents) && id in intents
    ensures
      var i := Delivery.Next(env, intents[id], step);
      Delivery.Live(i) && Delivery.SameIdentity(intents[id], i) && forall j | j in intents :: Delivery.SameIdentity(intents[j], intents[j])
  {
    assert Delivery.Live(intents[id]);
    Delivery.StepFacts(env, intents[id], step);
  }

  lemma DeliveredIntentOwned(contexts: map<string, Context>, intents: map<string, Delivery.Intent>, id: string, i: Delivery.Intent)
    requires IntentsOwned(contexts, intents) && id in intents && Delivery.SameIdentity(intents[id], i) && Delivery.Live(i)
    ensures IntentsOwned(contexts, intents[id := i])
  {
    hide Delivery.Live;
  }

  lemma StatementSettles(env: Env, t: Tables, ruleId: string, step: Schedule.Step, versions: map<(string, int), Version>)
    requires Settled(env, t) && ruleId in t.rules && VersionsStored(t.(versions := versions))
    ensures
      var after := t.(rules := t.rules[ruleId := Schedule.Next(t.rules[ruleId], step)], versions := versions);
      Settled(env, after) && Preserves(t, after)
  {
    assert RulesLive(t) && VersionsStored(t);
    Schedule.StepKeepsLive(t.rules[ruleId], step);
    hide Settled, Schedule.Next, Schedule.Live, StoredVersion;
    RuleChangeSettles(env, t, t.rules[ruleId := Schedule.Next(t.rules[ruleId], step)], versions);
  }

  lemma VersionAdded(t: Tables, ruleId: string, n: int, v: Version)
    requires VersionsStored(t) && NewVersion(t, ruleId, n, v)
    ensures VersionsStored(t.(versions := t.versions[(ruleId, n) := v]))
  {}

  lemma CreationSettles(env: Env, t: Tables, ruleId: string, rule: Schedule.Rule, v: Version)
    requires Settled(env, t) && Schedule.NewRule(rule) && NewVersion(t, ruleId, 1, v)
    ensures
      var after := t.(rules := t.rules[ruleId := rule], versions := t.versions[(ruleId, 1) := v]);
      Settled(env, after) && Preserves(t, after)
  {
    assert RulesLive(t.(rules := t.rules[ruleId := rule]));
    VersionAdded(t, ruleId, 1, v);
    hide Settled, NewVersion, StoredVersion;
    RuleChangeSettles(env, t, t.rules[ruleId := rule], t.versions[(ruleId, 1) := v]);
  }

  lemma EvaluationActionSettles(env: Env, t: Tables, a: Action)
    requires Sound(env) && Settled(env, t) && (a.ScheduledEvaluation? || a.CompletedRunEvaluation?) && FreshFor(t, a.ids)
    ensures Settled(env, Act(env, t, a)) && Preserves(t, Act(env, t, a))
  {
    hide Settled, Evaluate, Preserves, SINKS;
    PreservesItself(t);
    if a.ScheduledEvaluation? {
      EvaluateFacts(env, t, TriggerFor(a.o, a.claim.ruleId, a.claim.version), a.o, a.ids, a.startNow, a.scopeOk);
    } else {
      EvaluateFacts(env, t, TriggerFor(a.o, a.ruleId, a.ruleVersion), a.o, a.ids, a.now, a.scopeOk);
    }
  }

  lemma EditSettles(env: Env, t: Tables, ruleId: string, patch: Schedule.Patch, v: Version)
    requires Settled(env, t) && ruleId in t.rules && NewVersion(t, ruleId, t.rules[ruleId].version + 1, v)
    ensures
      var after := t.(rules := t.rules[ruleId := Schedule.Next(t.rules[ruleId], Schedule.UpdateStep(patch))],
                      versions := t.versions[(ruleId, v.version) := v]);
      Settled(env, after) && Preserves(t, after)
  {
    assert VersionsStored(t);
    hide Settled, Preserves, VersionsStored, Schedule.Next, NewVersion;
    VersionAdded(t, ruleId, t.rules[ruleId].version + 1, v);
    VersionNumber(t, ruleId, t.rules[ruleId].version + 1, v);
    StatementSettles(env, t, ruleId, Schedule.UpdateStep(patch), t.versions[(ruleId, v.version) := v]);
  }

  lemma StatementActionSettles(env: Env, t: Tables, ruleId: string, step: Schedule.Step)
    requires Settled(env, t)
    ensures var after := Act(env, t, ScheduleStatement(ruleId, step)); Settled(env, after) && Preserves(t, after)
  {
    assert VersionsStored(t);
    hide Settled, Preserves, VersionsStored, Schedule.Next;
    PreservesItself(t);
    if ruleId in t.rules {
      assert t.(versions := t.versions) == t;
      StatementSettles(env, t, ruleId, step, t.versions);
    }
  }

  lemma EditActionSettles(env: Env, t: Tables, ruleId: string, patch: Schedule.Patch, v: Version)
    requires Settled(env, t)
    ensures var after := Act(env, t, EditRule(ruleId, patch, v)); Settled(env, after) && Preserves(t, after)
  {
    hide Settled, Preserves, Schedule.Next, Schedule.Updated, NewVersion;
    PreservesItself(t);
    if ruleId in t.rules && NewVersion(t, ruleId, t.rules[ruleId].version + 1, v) {
      EditSettles(env, t, ruleId, patch, v);
    }
  }

  lemma CreateActionSettles(env: Env, t: Tables, ruleId: string, rule: Schedule.Rule, v: Version)
    requires Settled(env, t)
    ensures var after := Act(env, t, CreateRule(ruleId, rule, v)); Settled(env, after) && Preserves(t, after)
  {
    hide Settled, Preserves, Schedule.NewRule, NewVersion;
    PreservesItself(t);
    if Schedule.NewRule(rule) && NewVersion(t, ruleId, 1, v) {
      CreationSettles(env, t, ruleId, rule, v);
    }
  }

  lemma ActionSettles(env: Env, t: Tables, a: Action)
    requires Sound(env) && Settled(env, t) && Enabled(t, a)
    ensures Settled(env, Act(env, t, a)) && Preserves(t, Act(env, t, a))
  {
    hide Settled, Preserves, Delivery.Next, SINKS, FreshFor;
    match a
    case ScheduledEvaluation(_, _, _, _, _, _) => EvaluationActionSettles(env, t, a);
    case CompletedRunEvaluation(_, _, _, _, _, _) => EvaluationActionSettles(env, t, a);
    case ScheduleStatement(ruleId, step) => StatementActionSettles(env, t, ruleId, step);
    case EditRule(ruleId, patch, v) => EditActionSettles(env, t, ruleId, patch, v);
    case CreateRule(ruleId, rule, v) => CreateActionSettles(env, t, ruleId, rule, v);
    case DeliveryStatement(id, step) =>
      PreservesItself(t);
      if id in t.intents {
        DeliverySettles(env, t, id, step);
      }
  }

  lemma VersionNumber(t: Tables, ruleId: string, n: int, v: Version)
    requires NewVersion(t, ruleId, n, v)
    ensures v.version == n
  {}

  lemma PreservesTransitive(a: Tables, b: Tables, c: Tables)
    requires Preserves(a, b) && Preserves(b, c)
    ensures Preserves(a, c)
  {}

  /** Over every run, in every interleaving, the tables stay settled and nothing committed is undone. */
  lemma {:induction false} RunSettles(env: Env, t: Tables, actions: seq<Action>)
    requires Sound(env) && Settled(env, t) && AllEnabled(env, t, actions)
    ensures Settled(env, Run(env, t, actions)) && Preserves(t, Run(env, t, actions))
    decreases |actions|
  {
    if actions != [] {
      hide Settled, Act, Preserves, Enabled;
      ActionSettles(env, t, actions[0]);
      RunSettles(env, Act(env, t, actions[0]), actions[1..]);
      PreservesTransitive(t, Act(env, t, actions[0]), Run(env, t, actions));
    } else {
      PreservesItself(t);
    }
  }

  lemma PreservesItself(t: Tables)
    ensures Preserves(t, t)
  {}

  const NO_TABLES := Tables(map[], map[], map[], map[], map[], map[])

  /** A row with the key of another: of the same tenant, or both matched. */
  predicate SameKeyAs(t: Tables, other: string, e: string)
    requires e in t.evaluations
  {
    && other in t.evaluations && t.evaluations[other].key == t.evaluations[e].key
    && (t.evaluations[other].tenant == t.evaluations[e].tenant
        || (t.evaluations[other].outcome.WasMatched? && t.evaluations[e].outcome.WasMatched?))
  }

  /**
   Exactly once. In every reachable state no row is left observed, no two rows of a tenant share a key, nor do two
   matched rows of any tenants, and an evaluation is matched exactly when it has a context; then the context and the
   event are the only ones, and each approved sink has exactly one intent under it.
   */
  lemma OneEffectPerObservation(env: Env, actions: seq<Action>, e: string)
    requires Sound(env) && AllEnabled(env, NO_TABLES, actions)
    requires e in Run(env, NO_TABLES, actions).evaluations
    ensures
      var t := Run(env, NO_TABLES, actions);
      && !t.evaluations[e].outcome.Observed?
      && (forall other | SameKeyAs(t, other, e) :: other == e)
      && (t.evaluations[e].outcome.WasMatched? <==> exists x :: x in t.contexts && t.contexts[x].evaluationId == e)
      && (t.evaluations[e].outcome.WasMatched? ==>
            exists v, x :: Effect(t, e, v, x) && OnlyEffect(t, e, v, x))
  {
    RunSettles(env, NO_TABLES, actions);
    SettledMeansOnce(env, Run(env, NO_TABLES, actions), e);
  }

  lemma NotObserved(env: Env, t: Tables, e: string)
    requires RowsKeyed(env, t) && e in t.evaluations
    ensures !t.evaluations[e].outcome.Observed?
  {
  }

  lemma MatchedTwin(t: Tables, a: string, b: string)
    requires UniqueKeys(t) && MatchedHasEffect(t) && EventsOwned(t.evaluations, t.events) && ContextsOwned(t.evaluations, t.events, t.contexts)
    requires b in t.evaluations && SameKeyAs(t, a, b)
    ensures a == b
  {
    hide SINKS;
    if t.evaluations[a].outcome.WasMatched? && t.evaluations[b].outcome.WasMatched? {
      var v, x :| Effect(t, a, v, x);
      var w, y :| Effect(t, b, w, y);
      assert v == w && x == y;
    }
  }

  lemma SettledMeansOnce(env: Env, t: Tables, e: string)
    requires Settled(env, t) && e in t.evaluations
    ensures
      && !t.evaluations[e].outcome.Observed?
      && (forall other | SameKeyAs(t, other, e) :: other == e)
      && (t.evaluations[e].outcome.WasMatched? <==> exists x :: x in t.contexts && t.contexts[x].evaluationId == e)
      && (t.evaluations[e].outcome.WasMatched? ==>
            exists v, x :: Effect(t, e, v, x) && OnlyEffect(t, e, v, x))
  {
    hide SINKS, KeyJson, Delivery.Live, Approved, RowsKeyed, VersionsStored, RulesLive;
    assert RowsKeyed(env, t);
    NotObserved(env, t, e);
    forall other | SameKeyAs(t, other, e) ensures other == e {
      MatchedTwin(t, other, e);
    }
    if t.evaluations[e].outcome.WasMatched? {
      var v, x :| Effect(t, e, v, x);
      assert OnlyEffect(t, e, v, x);
    }
  }

  /** No second event, context or intent exists for the evaluation. */
  ghost predicate OnlyEffect(t: Tables, e: string, v: string, x: string)
    requires e in t.evaluations
  {
    && (forall w | w in t.events && t.events[w].alertKey == AlertKey(t.evaluations[e]) :: w == v)
    && (forall y | y in t.contexts && t.contexts[y].evaluationId == e :: y == x)
    && (forall s, i, j | s in SINKS && Addressed(t.intents, i, x, s) && Addressed(t.intents, j, x, s) :: i == j)
  }

  /**
   The first commit decides. Once an observation of a rule version is recorded, any later transaction for the same
   source and scope, after any run, leaves the tables alone and reports the recorded outcome or is refused.
   */
  lemma FirstCommitWins(env: Env, t: Tables, actions: seq<Action>, tr: Trigger, v: Version, o: Observation, outcome: Outcome,
                        again: Observation, ids: Fresh, now: int, scopeOk: bool)
    requires Sound(env) && Settled(env, t) && AllEnabled(env, t, actions) && Recorded(env, t, v, o, outcome)
    requires again.scope == o.scope && again.source == o.source
    requires
      var later := Run(env, t, actions);
      FreshFor(later, ids) && ((tr.ruleId, tr.ruleVersion) in later.versions ==> later.versions[(tr.ruleId, tr.ruleVersion)] == v)
    ensures
      var later := Run(env, t, actions);
      var r := Evaluate(env, later, tr, again, ids, now, scopeOk);
      r == Ok((later, outcome)) || (r.Err? && r.failure.ClaimRejected?)
  {
    hide CharsSize, ValidObservation, Run, EvaluateRule, Materialize, Evaluate, ObservationKey, AllEnabled, FreshFor, Settled;
    RunSettles(env, t, actions);
    var later := Run(env, t, actions);
    SettledKeys(env, later);
    FreshCount(later, ids);
    var e :| KeyedBy(t, e, o.scope.tenant, ObservationKey(env, v, o)) && t.evaluations[e].outcome == outcome;
    RepeatEvaluates(env, later, tr, v, o, again, ids, now, scopeOk, e);
  }

  lemma SettledKeys(env: Env, t: Tables)
    requires Settled(env, t)
    ensures UniqueKeys(t)
  {
    hide UniqueKeys;
  }

  lemma FreshCount(t: Tables, ids: Fresh)
    requires FreshFor(t, ids)
    ensures |ids.intents| == |SINKS|
  {
  }

  lemma RepeatEvaluates(env: Env, t: Tables, tr: Trigger, v: Version, o: Observation, again: Observation, ids: Fresh, now: int,
                        scopeOk: bool, e: string)
    requires Settled(env, t) && UniqueKeys(t) && |ids.intents| == |SINKS| && again.scope == o.scope && again.source == o.source
    requires (tr.ruleId, tr.ruleVersion) in t.versions ==> t.versions[(tr.ruleId, tr.ruleVersion)] == v
    requires KeyedBy(t, e, o.scope.tenant, ObservationKey(env, v, o))
    ensures
      var r := Evaluate(env, t, tr, again, ids, now, scopeOk);
      r == Ok((t, t.evaluations[e].outcome)) || (r.Err? && r.failure.ClaimRejected?)
  {
    SameKey(env, v, o, again);
    hide Settled, ObservationKey, CharsSize, ValidObservation, EvaluateRule, Materialize, SINKS;
    var claim := ClaimEvaluation(env, t, tr, again, ids.evaluation);
    if claim.Ok? {
      assert !claim.value.2;
      RepeatCase(env, t, tr, again, ids.evaluation);
      OneRowPerKey(t, e, claim.value.1);
    }
  }

  lemma SameKey(env: Env, v: Version, o: Observation, again: Observation)
    requires again.scope == o.scope && again.source == o.source
    ensures ObservationKey(env, v, again) == ObservationKey(env, v, o)
  {}

  lemma OneRowPerKey(t: Tables, a: string, b: string)
    requires UniqueKeys(t) && a in t.evaluations && b in t.evaluations
    requires t.evaluations[a].tenant == t.evaluations[b].tenant && t.evaluations[a].key == t.evaluations[b].key
    ensures a == b
  {}
}
