/** The alert_delivery_intents table updated in place by the delivery transactions (alert_dispatch.py). */
module DeliveryTable {
  import opened Json
  import opened Evaluation
  import opened Delivery
  import opened Strings

  /** What rendering outside storage produced. */
  datatype Render = MissingSink | RenderError(errorClass: string) | NotASinkIntent | Rendered(result: SinkIntent)

  datatype Dispatch = NoClaim | Finished(status: Status) | NotDelivered(errorClass: string) | RaisedError

  datatype Attempt<+T> = Returned(value: T) | Raised

  /** A statement another worker runs on some row between our two transactions. */
  datatype Foreign = Foreign(id: string, step: Step)

  function Exhaust(env: Env, rows: map<string, Intent>, now: int): map<string, Intent> {
    map id | id in rows :: Next(env, rows[id], ExhaustStep(now))
  }

  /** `ORDER BY available_at, created_at, id LIMIT 1` among the claimable rows. */
  predicate Claimable(rows: map<string, Intent>, id: string, now: int) {
    id in rows && Eligible(rows[id], now) && rows[id].attempts < rows[id].max
  }

  predicate Precedes(rows: map<string, Intent>, x: string, y: string)
    requires x in rows && y in rows
  {
    var (a, b) := (rows[x], rows[y]);
    || a.available < b.available
    || (a.available == b.available && (a.created < b.created || (a.created == b.created && (x == y || Below(x, y)))))
  }

  predicate FirstClaimable(rows: map<string, Intent>, id: string, now: int) {
    Claimable(rows, id, now) && forall other | other in rows && Claimable(rows, other, now) :: Precedes(rows, id, other)
  }

  lemma PrecedesTotal(rows: map<string, Intent>, x: string, y: string)
    requires x in rows && y in rows
    ensures Precedes(rows, x, y) || Precedes(rows, y, x)
    ensures Precedes(rows, x, y) && Precedes(rows, y, x) ==> x == y
  {
    BelowTotal(x, y);
  }

  lemma PrecedesTransitive(rows: map<string, Intent>, x: string, y: string, z: string)
    requires x in rows && y in rows && z in rows && Precedes(rows, x, y) && Precedes(rows, y, z)
    ensures Precedes(rows, x, z)
  {
    if Below(x, y) && Below(y, z) {
      BelowTransitive(x, y, z);
    }
  }

  lemma {:induction false} FirstAmong(rows: map<string, Intent>, ids: set<string>) returns (first: string)
    requires ids != {} && ids <= rows.Keys
    ensures first in ids && forall other | other in ids :: Precedes(rows, first, other)
    decreases |ids|
  {
    hide Precedes;
    var id :| id in ids;
    var rest := ids - {id};
    PrecedesTotal(rows, id, id);
    if rest == {} {
      assert ids == {id};
      first := id;
    } else {
      var best := FirstAmong(rows, rest);
      PrecedesTotal(rows, id, best);
      first := if Precedes(rows, id, best) then id else best;
      forall other | other in ids ensures Precedes(rows, first, other) {
        if other != id && first == id {
          PrecedesTransitive(rows, id, best, other);
        }
      }
    }
  }

  function Candidates(rows: map<string, Intent>, now: int): set<string> {
    set id | id in rows && Claimable(rows, id, now)
  }

  /** Among claimable rows there is a first one, and only one: the claim's pick is determined. */
  lemma FirstCandidate(rows: map<string, Intent>, now: int)
    requires Candidates(rows, now) != {}
    ensures exists id :: id in Candidates(rows, now) && FirstClaimable(rows, id, now)
    ensures forall x, y | FirstClaimable(rows, x, now) && FirstClaimable(rows, y, now) :: x == y
  {
    var id := FirstAmong(rows, Candidates(rows, now));
    assert forall other | other in rows && Claimable(rows, other, now) :: other in Candidates(rows, now);
    assert FirstClaimable(rows, id, now);
    forall x, y | FirstClaimable(rows, x, now) && FirstClaimable(rows, y, now) ensures x == y {
      PrecedesTotal(rows, x, y);
    }
  }

  function LeaseOn(env: Env, id: string, r: Intent, token: string, now: int): Lease {
    Lease(id, token, now + LEASE_DURATION, r.channel, r.destination,
          IdempotencyKey(env, r.contextId, r.channel, r.destination), r.attempts, r.max, r.root)
  }

  /** The claim transaction: exhausted rows become terminal, then the first claimable row is leased. */
  predicate ClaimResult(env: Env, before: map<string, Intent>, after: map<string, Intent>, now: int, token: string, lease: Option<Lease>) {
    var swept := Exhaust(env, before, now);
    match lease
    case None => after == swept && forall id | id in swept :: !Claimable(swept, id, now)
    case Some(l) =>
      && FirstClaimable(swept, l.intentId, now)
      && after == swept[l.intentId := Next(env, swept[l.intentId], ClaimStep(now, token))]
      && l == LeaseOn(env, l.intentId, after[l.intentId], token, now)
  }

  function Interleaved(env: Env, rows: map<string, Intent>, others: seq<Foreign>): map<string, Intent>
    decreases |others|
  {
    if others == [] then rows
    else
      var f := others[0];
      Interleaved(env, if f.id in rows then rows[f.id := Next(env, rows[f.id], f.step)] else rows, others[1..])
  }

  predicate Accepted(l: Lease, render: Render) { render.Rendered? && ResultMatchesLease(l, render.result) }

  function StepOn(rows: map<string, Intent>, env: Env, id: string, s: Step): map<string, Intent> {
    if id in rows then rows[id := Next(env, rows[id], s)] else rows
  }

  /**
   What one dispatch reports and leaves behind. A render the lease check refuses is still handed to completion:
   that raises while the lease is current, so the row keeps its lease until it expires.
   */
  predicate FinishResult(env: Env, before: map<string, Intent>, after: map<string, Intent>, l: Lease, render: Render, now: int, d: Dispatch) {
    var current := l.intentId in before && Findable(before[l.intentId], l, now);
    match render
    case MissingSink => d == NotDelivered("missing_sink") && after == StepOn(before, env, l.intentId, FailStep(l, now, "missing_sink"))
    case RenderError(c) =>
      d == NotDelivered(SafeErrorClass(c)) && after == StepOn(before, env, l.intentId, FailStep(l, now, SafeErrorClass(c)))
    case NotASinkIntent => d == RaisedError && after == before
    case Rendered(result) =>
      if !ValidSinkIntent(result) || (current && !(Accepted(l, render) && LeaseMatchesRow(env, l, before[l.intentId]))) then
        d == RaisedError && after == before
      else if !current then after == before && d == NotDelivered(if Accepted(l, render) then "lease_lost" else "ValueError")
      else d == Finished(result.status) && after == before[l.intentId := Completed(before[l.intentId], result)]
  }

  /** The rows a claim statement would move. */
  function Movable(env: Env, rows: map<string, Intent>, now: int, token: string): set<string> {
    set id | id in rows && Next(env, rows[id], ClaimStep(now, token)) != rows[id]
  }

  /** Available earlier, or as early and created earlier, or as old and with a smaller identifier. */
  predicate Older(r: Intent, x: string, s: Intent, y: string) {
    || r.available < s.available
    || (r.available == s.available && r.created < s.created)
    || (r.available == s.available && r.created == s.created && (x == y || Below(x, y)))
  }

  /** The row a claim leases, after the sweep, is one it can lease, and older than every other such row. */
  lemma ClaimsOldest(env: Env, before: map<string, Intent>, after: map<string, Intent>, now: int, token: string, lease: Option<Lease>)
    requires ClaimResult(env, before, after, now, token, lease)
    ensures
      var swept := Exhaust(env, before, now);
      var open := Movable(env, swept, now, token);
      && (lease.None? <==> open == {})
      && (lease.Some? ==>
            lease.value.intentId in open
            && forall id | id in open :: Older(swept[lease.value.intentId], lease.value.intentId, swept[id], id))
  {
    var swept := Exhaust(env, before, now);
    forall id | id in swept ensures Claimable(swept, id, now) <==> id in Movable(env, swept, now, token) {
      ClaimWrites(env, swept[id], now, token);
    }
    if lease.Some? {
      forall id | id in Movable(env, swept, now, token) ensures Older(swept[lease.value.intentId], lease.value.intentId, swept[id], id) {
        assert Precedes(swept, lease.value.intentId, id);
      }
    }
  }

  class Intents {
    var rows: map<string, Intent>

    ghost predicate Valid()
      reads this
    {
      forall id | id in rows :: Live(rows[id])
    }

    method ClaimDeliveryIntent(env: Env, now: int, token: string) returns (lease: Option<Lease>)
      requires Valid()
      modifies this
      ensures Valid()
      ensures ClaimResult(env, old(rows), rows, now, token, lease)
    {
      rows := Exhaust(env, rows, now);
      if Candidates(rows, now) == {} {
        assert forall id | id in rows && Claimable(rows, id, now) :: id in Candidates(rows, now);
        return None;
      }
      FirstCandidate(rows, now);
      var id :| id in Candidates(rows, now) && FirstClaimable(rows, id, now);
      var r := Delivery.Claimed(rows[id], now, token);
      rows := rows[id := r];
      return Some(LeaseOn(env, id, r, token, now));
    }

    /** True when stored, false when the lease is no longer found; raises when result, lease and row disagree. */
    method CompleteDeliveryIntent(env: Env, l: Lease, result: SinkIntent, now: int) returns (done: Attempt<bool>)
      requires Valid()
      modifies this
      ensures Valid()
      ensures
        var current := l.intentId in old(rows) && Findable(old(rows)[l.intentId], l, now);
        && (done.Raised? <==> !ValidSinkIntent(result)
                              || (current && !(ResultMatchesLease(l, result) && LeaseMatchesRow(env, l, old(rows)[l.intentId]))))
        && (done.Returned? ==> done.value == current)
        && rows == (if done == Returned(true) then old(rows)[l.intentId := Completed(old(rows)[l.intentId], result)] else old(rows))
      ensures rows == StepOn(old(rows), env, l.intentId, CompleteStep(l, result, now))
      ensures
        done == Returned(true) ==>
          && l.intentId in old(rows) && rows == old(rows)[l.intentId := rows[l.intentId]]
          && Stores(rows[l.intentId], old(rows)[l.intentId], result)
    {
      if !ValidSinkIntent(result) {
        return Raised;
      }
      if l.intentId !in rows || !Findable(rows[l.intentId], l, now) {
        return Returned(false);
      }
      var r := rows[l.intentId];
      if !ResultMatchesLease(l, result) || !LeaseMatchesRow(env, l, r) {
        return Raised;
      }
      rows := rows[l.intentId := Completed(r, result)];
      return Returned(true);
    }

    method RecordDeliveryFailure(env: Env, l: Lease, now: int, errorClass: string) returns (released: bool)
      requires Valid()
      modifies this
      ensures Valid()
      ensures released <==> l.intentId in old(rows) && Owned(old(rows)[l.intentId], l, now)
      ensures rows == StepOn(old(rows), env, l.intentId, FailStep(l, now, errorClass))
    {
      released := l.intentId in rows && Owned(rows[l.intentId], l, now);
      if released {
        rows := rows[l.intentId := Failed(rows[l.intentId], l, now, errorClass)];
      }
    }

    /** Other workers' statements, in any number and order. */
    method Interfere(env: Env, others: seq<Foreign>)
      requires Valid()
      modifies this
      ensures Valid()
      ensures rows == Interleaved(env, old(rows), others)
    {
      var i := 0;
      while i < |others|
        invariant 0 <= i <= |others|
        invariant Valid()
        invariant Interleaved(env, rows, others[i..]) == Interleaved(env, old(rows), others)
      {
        assert others[i..][0] == others[i] && others[i..][1..] == others[i + 1..];
        var f := others[i];
        if f.id in rows {
          StepFacts(env, rows[f.id], f.step);
          rows := rows[f.id := Next(env, rows[f.id], f.step)];
        }
        i := i + 1;
      }
    }

    /** Claim, render outside storage while other workers run, then finish in a second transaction. */
    method DispatchOnce(env: Env, claimNow: int, token: string, render: Render, others: seq<Foreign>, finishNow: int)
      returns (d: Dispatch, ghost lease: Option<Lease>, ghost claimed: map<string, Intent>)
      requires Valid()
      modifies this
      ensures Valid()
      ensures ClaimResult(env, old(rows), claimed, claimNow, token, lease)
      ensures lease.None? ==> d.NoClaim? && rows == claimed
      ensures lease.Some? ==> FinishResult(env, Interleaved(env, claimed, others), rows, lease.value, render, finishNow, d)
      ensures lease.Some? && AllElsewhere(lease.value, others) && finishNow < lease.value.expires ==>
                lease.value.intentId in rows && (rows[lease.value.intentId].status.Leased? <==> Refused(lease.value, render))
    {
      var claim := ClaimDeliveryIntent(env, claimNow, token);
      lease, claimed := claim, rows;
      if claim.None? {
        return NoClaim, lease, claimed;
      }
      var l := claim.value;
      Interfere(env, others);
      d := Finish(env, l, render, finishNow);
      if AllElsewhere(l, others) && finishNow < l.expires {
        LeasedIffRefused(env, old(rows), claimed, rows, claimNow, token, l, others, render, finishNow, d);
      }
    }

    /** Rendering, and the second transaction of a dispatch. */
    method Finish(env: Env, l: Lease, render: Render, finishNow: int) returns (d: Dispatch)
      requires Valid()
      modifies this
      ensures Valid()
      ensures FinishResult(env, old(rows), rows, l, render, finishNow, d)
    {
      var errorClass: Option<string> := None;
      var rendered: Option<Render> := None;
      match render {
        case MissingSink => errorClass := Some("missing_sink");
        case RenderError(c) => errorClass := Some(SafeErrorClass(c));
        case _ =>
          rendered := Some(render);
          if !Accepted(l, render) {
            errorClass := Some("ValueError");
          }
      }
      if rendered.None? {
        var cls := if errorClass.Some? then errorClass.value else "render_error";
        var _ := RecordDeliveryFailure(env, l, finishNow, cls);
        return NotDelivered(cls);
      }
      if rendered.value.NotASinkIntent? {
        return RaisedError;
      }
      var done := CompleteDeliveryIntent(env, l, rendered.value.result, finishNow);
      if done.Raised? {
        return RaisedError;
      }
      if done.value {
        return Finished(rendered.value.result.status);
      }
      return NotDelivered(if errorClass.Some? then errorClass.value else "lease_lost");
    }
  }

  // ---------------------------------------------------------------- what a dispatch leaves behind

  /** Another worker's statement on this row: under a lease of its own, or by a clock before this lease's expiry. */
  predicate Elsewhere(l: Lease, f: Foreign) {
    f.id == l.intentId ==>
      match f.step
      case ExhaustStep(now) => now < l.expires
      case ClaimStep(now, _) => now < l.expires
      case CompleteStep(lease, _, _) => lease.token != l.token
      case FailStep(lease, _, _) => lease.token != l.token
  }

  predicate AllElsewhere(l: Lease, others: seq<Foreign>) { forall k | 0 <= k < |others| :: Elsewhere(l, others[k]) }

  /** The row carries this very lease. */
  predicate Carries(rows: map<string, Intent>, l: Lease) {
    && l.intentId in rows
    && var r := rows[l.intentId]; r.status.Leased? && r.token == Some(l.token) && r.expires == Some(l.expires)
  }

  lemma ClaimCarries(env: Env, before: map<string, Intent>, claimed: map<string, Intent>, now: int, token: string, l: Lease)
    requires ClaimResult(env, before, claimed, now, token, Some(l))
    ensures Carries(claimed, l) && LeaseMatchesRow(env, l, claimed[l.intentId]) && l.token == token
  {
  }

  /** While the lease lasts, no other worker moves its row. */
  lemma {:induction false} OthersKeepTheLease(env: Env, rows: map<string, Intent>, l: Lease, others: seq<Foreign>)
    requires Carries(rows, l) && AllElsewhere(l, others)
    ensures Carries(Interleaved(env, rows, others), l) && Interleaved(env, rows, others)[l.intentId] == rows[l.intentId]
    decreases |others|
  {
    if others != [] {
      var f := others[0];
      assert Elsewhere(l, f);
      var next := if f.id in rows then rows[f.id := Next(env, rows[f.id], f.step)] else rows;
      assert f.id == l.intentId ==> Next(env, rows[f.id], f.step) == rows[f.id];
      assert AllElsewhere(l, others[1..]);
      OthersKeepTheLease(env, next, l, others[1..]);
    }
  }

  /** Not a sink intent, one that fails revalidation, or one for another lease. */
  predicate Refused(l: Lease, render: Render) {
    render.NotASinkIntent? || (render.Rendered? && !(ValidSinkIntent(render.result) && ResultMatchesLease(l, render.result)))
  }

  /**
   When a dispatched claim is left unfinished: exactly when its render is refused. Finished before the lease expires,
   and whatever other workers do in between, a dispatch raises and leaves the row leased if and only if the render is
   not a sink intent, does not revalidate or does not answer this lease; otherwise the row is terminal or pending.
   */
  lemma LeasedIffRefused(env: Env, before: map<string, Intent>, claimed: map<string, Intent>, after: map<string, Intent>,
                         claimNow: int, token: string, l: Lease, others: seq<Foreign>, render: Render, finishNow: int, d: Dispatch)
    requires ClaimResult(env, before, claimed, claimNow, token, Some(l)) && AllElsewhere(l, others)
    requires FinishResult(env, Interleaved(env, claimed, others), after, l, render, finishNow, d) && finishNow < l.expires
    ensures l.intentId in after && (after[l.intentId].status.Leased? <==> Refused(l, render))
    ensures d.RaisedError? <==> Refused(l, render)
  {
    ClaimCarries(env, before, claimed, claimNow, token, l);
    OthersKeepTheLease(env, claimed, l, others);
    hide Interleaved, ClaimResult;
  }

  /** A refused render changes no row, and no other worker can move the claimed one for as long as the lease lasts. */
  lemma RefusedRenderHoldsTheLease(env: Env, before: map<string, Intent>, claimed: map<string, Intent>, after: map<string, Intent>,
                                   claimNow: int, token: string, l: Lease, others: seq<Foreign>, render: Render, finishNow: int, d: Dispatch,
                                   later: seq<Foreign>)
    requires ClaimResult(env, before, claimed, claimNow, token, Some(l)) && AllElsewhere(l, others) && AllElsewhere(l, later)
    requires FinishResult(env, Interleaved(env, claimed, others), after, l, render, finishNow, d) && finishNow < l.expires
    requires Refused(l, render)
    ensures d.RaisedError? && after == Interleaved(env, claimed, others)
    ensures Carries(Interleaved(env, after, later), l) && Interleaved(env, after, later)[l.intentId] == claimed[l.intentId]
  {
    ClaimCarries(env, before, claimed, claimNow, token, l);
    OthersKeepTheLease(env, claimed, l, others);
    hide Interleaved, ClaimResult;
    OthersKeepTheLease(env, after, l, later);
  }

  /** A render that is not refused is stored with its own status, and every other row is as the other workers left it. */
  lemma AcceptedRenderIsStored(env: Env, before: map<string, Intent>, claimed: map<string, Intent>, after: map<string, Intent>,
                               claimNow: int, token: string, l: Lease, others: seq<Foreign>, result: SinkIntent, finishNow: int, d: Dispatch)
    requires ClaimResult(env, before, claimed, claimNow, token, Some(l)) && AllElsewhere(l, others)
    requires FinishResult(env, Interleaved(env, claimed, others), after, l, Rendered(result), finishNow, d) && finishNow < l.expires
    requires !Refused(l, Rendered(result))
    ensures d == Finished(result.status) && Terminal(after[l.intentId])
    ensures after == Interleaved(env, claimed, others)[l.intentId := Completed(claimed[l.intentId], result)]
    ensures l.intentId in claimed && Stores(after[l.intentId], claimed[l.intentId], result)
  {
    ClaimCarries(env, before, claimed, claimNow, token, l);
    OthersKeepTheLease(env, claimed, l, others);
    hide Interleaved, ClaimResult;
  }
}
