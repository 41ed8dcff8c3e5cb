/** The watch_rules table as the schedule statements update it in place (alert_triggers.py). */
module ScheduleTable {
  import opened Json
  import opened Schedule
  import opened Strings

  /** What a raised exception leaves to the caller: the transaction rolls back. */
  datatype Attempt<+T> = Returned(value: T) | Raised

  predicate Selected(id: string, filter: Option<string>) { filter.None? || filter.value == id }

  /** The rows a statement may pick, each with the time the statement orders by. */
  function FifthClaims(rows: map<string, Rule>, now: int, filter: Option<string>): map<string, int> {
    map id | id in rows && Selected(id, filter) && ExpiredFifth(rows[id], now) :: rows[id].expires.value
  }

  function DueRules(rows: map<string, Rule>, now: int, filter: Option<string>): map<string, int> {
    map id | id in rows && Selected(id, filter) && Eligible(rows[id], now) :: rows[id].next.value
  }

  /** Earlier by the statement's time, then by identifier. */
  predicate Ahead(times: map<string, int>, a: string, b: string)
    requires a in times && b in times
  {
    times[a] < times[b] || (times[a] == times[b] && (a == b || Below(a, b)))
  }

  /** `ORDER BY time, id LIMIT 1` */
  predicate First(times: map<string, int>, id: string) {
    id in times && forall other | other in times :: Ahead(times, id, other)
  }

  lemma AheadTotal(times: map<string, int>, a: string, b: string)
    requires a in times && b in times
    ensures Ahead(times, a, b) || Ahead(times, b, a)
    ensures Ahead(times, a, b) && Ahead(times, b, a) ==> a == b
  {
    BelowTotal(a, b);
  }

  lemma AheadTransitive(times: map<string, int>, a: string, b: string, c: string)
    requires a in times && b in times && c in times && Ahead(times, a, b) && Ahead(times, b, c)
    ensures Ahead(times, a, c)
  {
    if Below(a, b) && Below(b, c) {
      BelowTransitive(a, b, c);
    }
  }

  lemma {:induction false} FirstAmong(times: map<string, int>, ids: set<string>) returns (first: string)
    requires ids != {} && ids <= times.Keys
    ensures first in ids && forall other | other in ids :: Ahead(times, first, other)
    decreases |ids|
  {
    hide Ahead;
    var id :| id in ids;
    var rest := ids - {id};
    AheadTotal(times, id, id);
    if rest == {} {
      assert ids == {id};
      first := id;
    } else {
      var best := FirstAmong(times, rest);
      AheadTotal(times, id, best);
      first := if Ahead(times, id, best) then id else best;
      forall other | other in ids ensures Ahead(times, first, other) {
        if other != id && first == id {
          AheadTransitive(times, id, best, other);
        }
      }
    }
  }

  /** There is a first entry, and only one: the statement's pick is determined. */
  lemma FirstExists(times: map<string, int>)
    requires times != map[]
    ensures exists id :: First(times, id)
    ensures forall a, b | First(times, a) && First(times, b) :: a == b
  {
    var some :| some in times;
    assert times.Keys != {};
    var id := FirstAmong(times, times.Keys);
    assert First(times, id);
    forall a, b | First(times, a) && First(times, b) ensures a == b {
      AheadTotal(times, a, b);
    }
  }

  /** The outcome of the reap statement: the earliest expired fifth claim is paused, if there is one. */
  predicate ReapResult(before: map<string, Rule>, after: map<string, Rule>, now: int, filter: Option<string>, reaped: Option<string>) {
    var candidates := FifthClaims(before, now, filter);
    match reaped
    case None => candidates == map[] && after == before
    case Some(id) => First(candidates, id) && after == before[id := Next(before[id], ReapStep(now))]
  }

  /** The outcome of the claim statement: the earliest due rule is leased and described, if there is one. */
  predicate ClaimResult(before: map<string, Rule>, after: map<string, Rule>, now: int, token: string,
                        filter: Option<string>, claim: Option<Claim>) {
    var due := DueRules(before, now, filter);
    match claim
    case None => due == map[] && after == before
    case Some(c) =>
      && First(due, c.ruleId)
      && after == before[c.ruleId := Next(before[c.ruleId], ClaimStep(now, token))]
      && Owns(after[c.ruleId], c, now)
      && c.token == token && c.expires == now + CLAIM_DURATION
      && Some(c.scheduledFor) == before[c.ruleId].next && Some(c.interval) == before[c.ruleId].interval
      && c.version == before[c.ruleId].version && c.signal == before[c.ruleId].signal && c.kind == before[c.ruleId].kind
  }

  /** One moment and identifier come before another. */
  predicate Sooner(s: int, a: string, t: int, b: string) { s < t || (s == t && (a == b || Below(a, b))) }

  /** The rules a statement would move, among those asked for. */
  function Movable(rows: map<string, Rule>, s: Step, filter: Option<string>): set<string> {
    set id | id in rows && (filter.None? || id == filter.value) && Next(rows[id], s) != rows[id]
  }

  lemma DueMovable(rows: map<string, Rule>, now: int, token: string, filter: Option<string>)
    requires now + CLAIM_DURATION <= MAX_TIME
    ensures DueRules(rows, now, filter).Keys == Movable(rows, ClaimStep(now, token), filter)
  {
    forall id | id in rows ensures Eligible(rows[id], now) <==> Next(rows[id], ClaimStep(now, token)) != rows[id] {
      ClaimWrites(rows[id], now, token);
    }
  }

  lemma FifthMovable(rows: map<string, Rule>, now: int, filter: Option<string>)
    ensures FifthClaims(rows, now, filter).Keys == Movable(rows, ReapStep(now), filter)
  {
    forall id | id in rows ensures ExpiredFifth(rows[id], now) <==> Next(rows[id], ReapStep(now)) != rows[id] {
      ReapWrites(rows[id], now);
    }
  }

  /** The rule a claim leases is one it can lease, and due before every other such rule. */
  lemma ClaimsEarliest(before: map<string, Rule>, after: map<string, Rule>, now: int, token: string, filter: Option<string>, claim: Option<Claim>)
    requires ClaimResult(before, after, now, token, filter, claim) && now + CLAIM_DURATION <= MAX_TIME
    ensures
      var open := Movable(before, ClaimStep(now, token), filter);
      && (claim.None? <==> open == {})
      && (claim.Some? ==> claim.value.ruleId in open && before[claim.value.ruleId].next.Some?)
      && (claim.Some? ==>
            forall id | id in open ::
              before[id].next.Some? && Sooner(before[claim.value.ruleId].next.value, claim.value.ruleId, before[id].next.value, id))
  {
    DueMovable(before, now, token, filter);
    var due := DueRules(before, now, filter);
    if claim.Some? {
      forall id | id in due ensures Sooner(before[claim.value.ruleId].next.value, claim.value.ruleId, before[id].next.value, id) {
        assert Ahead(due, claim.value.ruleId, id);
      }
    }
  }

  /** A reap pauses the rule whose fifth lease expired before every other. */
  lemma ReapsEarliest(before: map<string, Rule>, after: map<string, Rule>, now: int, filter: Option<string>, reaped: Option<string>)
    requires ReapResult(before, after, now, filter, reaped)
    ensures
      var open := Movable(before, ReapStep(now), filter);
      && (reaped.None? <==> open == {})
      && (reaped.Some? ==> reaped.value in open && before[reaped.value].expires.Some?)
      && (reaped.Some? ==>
            forall id | id in open ::
              before[id].expires.Some? && Sooner(before[reaped.value].expires.value, reaped.value, before[id].expires.value, id))
  {
    FifthMovable(before, now, filter);
    var fifth := FifthClaims(before, now, filter);
    if reaped.Some? {
      forall id | id in fifth ensures Sooner(before[reaped.value].expires.value, reaped.value, before[id].expires.value, id) {
        assert Ahead(fifth, reaped.value, id);
      }
    }
  }

  class WatchRules {
    var rows: map<string, Rule>

    ghost predicate Valid()
      reads this
    {
      forall id | id in rows :: Live(rows[id])
    }

    /** Pauses one rule whose fifth lease expired, the earliest to expire. */
    method ReapExpiredFifthClaim(now: int, filter: Option<string>) returns (reaped: Option<string>)
      requires Valid()
      modifies this
      ensures Valid()
      ensures ReapResult(old(rows), rows, now, filter, reaped)
    {
      var candidates := FifthClaims(rows, now, filter);
      if candidates == map[] {
        return None;
      }
      FirstExists(candidates);
      var id :| First(candidates, id);
      rows := rows[id := Reaped(rows[id], now)];
      return Some(id);
    }

    /** The conditional update that leases the earliest due rule. */
    method TryClaim(now: int, token: string, filter: Option<string>) returns (claim: Option<Claim>)
      requires Valid() && now + CLAIM_DURATION <= MAX_TIME
      modifies this
      ensures Valid()
      ensures ClaimResult(old(rows), rows, now, token, filter, claim)
    {
      var due := DueRules(rows, now, filter);
      if due == map[] {
        return None;
      }
      FirstExists(due);
      var id :| First(due, id);
      var r := rows[id];
      rows := rows[id := Claimed(r, now, token)];
      return Some(Claim(id, token, now + CLAIM_DURATION, r.next.value, r.kind, r.interval.value,
                        r.signal, r.version, r.attempts + 1));
    }

    /**
     Reaps at most one rule, then leases the earliest due one; a reap asked for one rule claims nothing.
     When the expiry is not representable the statement raises and the reap is rolled back with it.
     */
    method ClaimScheduledRule(now: int, token: string, filter: Option<string>)
      returns (claim: Attempt<Option<Claim>>, ghost mid: map<string, Rule>, ghost reaped: Option<string>)
      requires Valid()
      modifies this
      ensures Valid()
      ensures ReapResult(old(rows), mid, now, filter, reaped)
      ensures claim.Raised? ==> rows == old(rows) && now + CLAIM_DURATION > MAX_TIME
      ensures claim.Returned? ==>
                if reaped.Some? && filter.Some? then claim.value.None? && rows == mid
                else ClaimResult(mid, rows, now, token, filter, claim.value)
    {
      var snapshot := rows;
      var id := ReapExpiredFifthClaim(now, filter);
      reaped, mid := id, rows;
      if id.Some? && filter.Some? {
        return Returned(None), mid, reaped;
      }
      if now + CLAIM_DURATION > MAX_TIME {
        rows := snapshot;
        return Raised, mid, reaped;
      }
      var c := TryClaim(now, token, filter);
      return Returned(c), mid, reaped;
    }

    method CompleteScheduledRule(c: Claim, now: int, cursor: Option<Option<string>>) returns (done: Attempt<bool>)
      requires Valid() && c.interval > 0
      modifies this
      ensures Valid()
      ensures done.Raised? <==> NextSlot(c.scheduledFor, c.interval, now).None?
      ensures done.Returned? ==> (done.value <==> c.ruleId in old(rows) && Owns(old(rows)[c.ruleId], c, now))
      ensures rows == if c.ruleId in old(rows) then old(rows)[c.ruleId := Next(old(rows)[c.ruleId], CompleteStep(c, now, cursor))]
                      else old(rows)
    {
      var slot := NextSlot(c.scheduledFor, c.interval, now);
      if slot.None? {
        return Raised;
      }
      if c.ruleId !in rows || !Owns(rows[c.ruleId], c, now) {
        return Returned(false);
      }
      rows := rows[c.ruleId := Completed(rows[c.ruleId], now, slot.value, cursor)];
      return Returned(true);
    }

    method FailScheduledRule(c: Claim, now: int, cursor: Option<Option<string>>) returns (done: Attempt<bool>)
      requires Valid()
      modifies this
      ensures Valid()
      ensures done.Raised? <==> !(1 <= c.attempts <= 5)
      ensures done.Returned? ==> (done.value <==> c.ruleId in old(rows) && Owns(old(rows)[c.ruleId], c, now))
      ensures rows == if c.ruleId in old(rows) then old(rows)[c.ruleId := Next(old(rows)[c.ruleId], FailStep(c, now, cursor))]
                      else old(rows)
    {
      if !(1 <= c.attempts <= 5) {
        return Raised;
      }
      if c.ruleId !in rows || !Owns(rows[c.ruleId], c, now) {
        return Returned(false);
      }
      rows := rows[c.ruleId := Failed(rows[c.ruleId], c.attempts, now, cursor)];
      return Returned(true);
    }

    /** Fails the lease, or, when a fifth lease is already lost, reaps its rule if it has expired. */
    method FinishScheduleFailure(c: Claim, now: int, cursor: Option<Option<string>>) returns (settled: Attempt<bool>)
      requires Valid()
      modifies this
      ensures Valid()
      ensures settled.Raised? <==> !(1 <= c.attempts <= 5)
      ensures settled.Returned? ==>
                (settled.value <==>
                   c.ruleId in old(rows)
                   && (Owns(old(rows)[c.ruleId], c, now) || (c.attempts == 5 && ExpiredFifth(old(rows)[c.ruleId], now))))
      ensures settled.Returned? && settled.value ==> c.ruleId in rows && rows[c.ruleId].token.None?
      ensures forall id | id in old(rows) && id != c.ruleId :: id in rows && rows[id] == old(rows)[id]
      ensures settled != Returned(true) ==> rows == old(rows)
    {
      settled := FailScheduledRule(c, now, cursor);
      if settled != Returned(false) || c.attempts != 5 {
        return;
      }
      assert rows == old(rows);
      var reaped := ReapExpiredFifthClaim(now, Some(c.ruleId));
      settled := Returned(reaped == Some(c.ruleId));
      assert reaped.None? ==> c.ruleId !in FifthClaims(old(rows), now, Some(c.ruleId));
    }
  }
}
