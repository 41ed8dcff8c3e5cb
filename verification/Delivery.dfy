/**
 Leased delivery of alert intents (alert_dispatch.py): claim, complete, fail and exhaust as guarded atomic
 statements on one row. Clock readings and lease tokens are arbitrary.
 */
module Delivery {
  import opened Json
  import opened Evaluation

  const LEASE_DURATION: int := 300

  datatype Channel = Email | InApp

  datatype Status = Pending | Leased | RenderedIntent | NotSent

  /** The ownership columns every alert table copies from the evaluation. */
  datatype Ownership = Ownership(tenant: string, owner: string, team: string, issuer: Option<string>, portfolio: Option<string>)

  /** A row of alert_delivery_intents; times in seconds. */
  datatype Intent = Intent(
    ownership: Ownership, contextId: string, eventId: string, channel: Channel, destination: string, root: string, created: int,
    status: Status, attempts: int, max: int, available: int, token: Option<string>, expires: Option<int>,
    rendered: Option<Json>, reason: Option<string>)

  datatype Lease = Lease(
    intentId: string, token: string, expires: int, channel: Channel, destination: string, key: string,
    attempts: int, max: int, root: string)

  /** What a sink hands back. */
  datatype SinkIntent = SinkIntent(
    channel: Channel, destination: string, key: string, status: Status, rendered: Option<Json>, reason: Option<string>)

  /** The SinkIntent validators: the payload goes with the status. */
  predicate ValidSinkIntent(s: SinkIntent) {
    && IsHexKey(s.key) && 1 <= |s.destination| <= 256 && (s.reason.Some? ==> |s.reason.value| <= 256)
    && match s.status
       case RenderedIntent => s.rendered.Some? && s.reason.None?
       case NotSent => s.reason.Some? && s.rendered.None?
       case _ => s.rendered.None? && s.reason.None?
  }

  function IdempotencyKey(env: Env, contextId: string, channel: Channel, destination: string): string {
    env.hash(JArr([JStr("c3-delivery-v1"), JStr(contextId), JStr(if channel.Email? then "email" else "in_app"), JStr(destination)]))
  }

  /** The key depends on the context, the channel and the destination, and tells any two of them apart. */
  lemma IdempotencyKeyIff(x: string, c: Channel, d: string, y: string, e: Channel, f: string)
    ensures (forall env: Env :: IdempotencyKey(env, x, c, d) == IdempotencyKey(env, y, e, f)) <==> (x, c, d) == (y, e, f)
  {
    if (x, c, d) != (y, e, f) {
      var j := JArr([JStr("c3-delivery-v1"), JStr(x), JStr(if c.Email? then "email" else "in_app"), JStr(d)]);
      var k := JArr([JStr("c3-delivery-v1"), JStr(y), JStr(if e.Email? then "email" else "in_app"), JStr(f)]);
      assert "email"[0] != "in_app"[0];
      assert j != k by { assert j.items[1] != k.items[1] || j.items[2] != k.items[2] || j.items[3] != k.items[3]; }
      var env := Env((v: Json) => if v == j then "j" else "k", (s: string) => None);
      assert env.hash(j) != env.hash(k) by { assert "j"[0] != "k"[0]; }
      assert IdempotencyKey(env, x, c, d) == env.hash(j) && IdempotencyKey(env, y, e, f) == env.hash(k);
    }
  }

  predicate Eligible(r: Intent, now: int) {
    (r.status.Pending? && r.available <= now) || (r.status.Leased? && r.expires.Some? && r.expires.value <= now)
  }

  /** The row carries this lease and it has not expired. */
  predicate Owned(r: Intent, l: Lease, now: int) {
    && r.status.Leased? && r.token == Some(l.token) && r.expires.Some? && r.expires.value > now
    && r.channel == l.channel && r.destination == l.destination
    && r.attempts == l.attempts && r.max == l.max && r.root == l.root
  }

  predicate Findable(r: Intent, l: Lease, now: int) {
    r.status.Leased? && r.token == Some(l.token) && r.expires.Some? && r.expires.value > now
  }

  predicate ResultMatchesLease(l: Lease, s: SinkIntent) {
    s.channel == l.channel && s.destination == l.destination && s.key == l.key && (s.status.RenderedIntent? || s.status.NotSent?)
  }

  predicate LeaseMatchesRow(env: Env, l: Lease, r: Intent) {
    && l.channel == r.channel && l.destination == r.destination && l.attempts == r.attempts && l.max == r.max && l.root == r.root
    && l.key == IdempotencyKey(env, r.contextId, r.channel, r.destination)
  }

  function Exhausted(r: Intent): Intent {
    r.(status := NotSent, rendered := None, reason := Some("retry_exhausted"), token := None, expires := None)
  }

  function Claimed(r: Intent, now: int, token: string): Intent {
    r.(status := Leased, attempts := r.attempts + 1, token := Some(token), expires := Some(now + LEASE_DURATION),
       rendered := None, reason := None)
  }

  function Completed(r: Intent, s: SinkIntent): Intent {
    r.(status := s.status, rendered := s.rendered, reason := s.reason, token := None, expires := None)
  }

  function Pow2(n: nat): nat { if n == 0 then 1 else 2 * Pow2(n - 1) }

  /** 30, 60, 120, 240 seconds, then 300. */
  function RetryDelay(attempts: int): int {
    var doubled := 30 * Pow2(if attempts >= 1 then attempts - 1 else 0);
    if doubled < 300 then doubled else 300
  }

  /** `^[A-Za-z0-9_.-]{1,64}$`, or the generic class. */
  function SafeErrorClass(s: string): string {
    if 1 <= |s| <= 64
       && (forall i | 0 <= i < |s| :: 'A' <= s[i] <= 'Z' || 'a' <= s[i] <= 'z' || '0' <= s[i] <= '9' || s[i] in {'_', '.', '-'})
    then s else "render_error"
  }

  function Failed(r: Intent, l: Lease, now: int, errorClass: string): Intent {
    var released := r.(rendered := None, token := None, expires := None);
    if l.attempts >= l.max then released.(status := NotSent, reason := Some("render_error:" + SafeErrorClass(errorClass)))
    else released.(status := Pending, reason := None, available := now + RetryDelay(l.attempts))
  }

  datatype Step =
    | ExhaustStep(now: int)
    | ClaimStep(now: int, token: string)
    | CompleteStep(lease: Lease, result: SinkIntent, now: int)
    | FailStep(lease: Lease, now: int, errorClass: string)

  /** Completion stores a result only when lease, result and row agree; otherwise it raises and rolls back. */
  predicate Completes(env: Env, r: Intent, l: Lease, s: SinkIntent, now: int) {
    Owned(r, l, now) && ValidSinkIntent(s) && ResultMatchesLease(l, s) && LeaseMatchesRow(env, l, r)
  }

  function Next(env: Env, r: Intent, s: Step): Intent {
    match s
    case ExhaustStep(now) => if Eligible(r, now) && r.attempts >= r.max then Exhausted(r) else r
    case ClaimStep(now, token) => if Eligible(r, now) && r.attempts < r.max then Claimed(r, now, token) else r
    case CompleteStep(l, result, now) => if Completes(env, r, l, result, now) then Completed(r, result) else r
    case FailStep(l, now, errorClass) => if Owned(r, l, now) then Failed(r, l, now, errorClass) else r
  }

  predicate Terminal(r: Intent) { r.status.RenderedIntent? || r.status.NotSent? }

  /** The table's CHECK constraints on attempts, lease pair and payload state. */
  predicate Checks(r: Intent) {
    && 1 <= r.max <= 5 && 0 <= r.attempts <= r.max
    && (r.status.Leased? <==> r.token.Some?) && (r.status.Leased? <==> r.expires.Some?)
    && (r.status.RenderedIntent? <==> r.rendered.Some?) && (r.status.NotSent? <==> r.reason.Some?)
  }

  /** The reachable rows: the CHECKs hold, a pending row has attempts left and a leased row has used one. */
  predicate Live(r: Intent) {
    Checks(r) && (r.status.Pending? ==> r.attempts < r.max) && (r.status.Leased? ==> r.attempts >= 1)
  }

  /** The row the materializer inserts. */
  function NewIntent(ownership: Ownership, contextId: string, eventId: string, channel: Channel, destination: string, max: int, root: string, now: int): Intent {
    Intent(ownership, contextId, eventId, channel, destination, root, now, Pending, 0, max, now, None, None, None, None)
  }

  function Run(env: Env, r: Intent, steps: seq<Step>): Intent
    decreases |steps|
  {
    if steps == [] then r else Run(env, Next(env, r, steps[0]), steps[1..])
  }

  /** Twice the attempts left, one more while leased, nothing once terminal. */
  function Measure(r: Intent): int {
    if Terminal(r) then 0 else 2 * (r.max - r.attempts) + (if r.status.Leased? then 1 else 0)
  }

  predicate SameIdentity(a: Intent, b: Intent) {
    && a.ownership == b.ownership && a.contextId == b.contextId && a.eventId == b.eventId && a.channel == b.channel && a.destination == b.destination
    && a.root == b.root && a.max == b.max && a.created == b.created
  }

  /** Every statement keeps the constraints, spends the measure if it does anything, and leaves terminal rows alone. */
  lemma StepFacts(env: Env, r: Intent, s: Step)
    requires Live(r)
    ensures
      var q := Next(env, r, s);
      && Live(q) && SameIdentity(r, q)
      && (q != r ==> Measure(q) < Measure(r))
      && (Terminal(r) ==> q == r)
      && 0 <= Measure(q)
  {}

  /** A lease with attempt number `a` is over: the row is past that attempt, or at it and no longer leased. */
  predicate Over(r: Intent, a: int) { r.attempts > a || (r.attempts == a && !r.status.Leased?) }

  /**
   Fencing. Once a leased row has been changed by a re-claim, a failure, a completion or an exhaustion, the lease
   it carried can change it no more, in any run whatever, with any clock readings and even if tokens repeat.
   */
  lemma {:induction false} OldLeaseIsInert(env: Env, r: Intent, l: Lease, s: Step, steps: seq<Step>, now: int,
                                           result: SinkIntent, errorClass: string)
    requires Live(r) && r.status.Leased? && r.attempts == l.attempts && Next(env, r, s) != r
    ensures
      var q := Run(env, Next(env, r, s), steps);
      && !Owned(q, l, now)
      && Next(env, q, CompleteStep(l, result, now)) == q
      && Next(env, q, FailStep(l, now, errorClass)) == q
  {
    StepFacts(env, r, s);
    StaysOver(env, Next(env, r, s), l.attempts, steps);
  }

  lemma {:induction false} StaysOver(env: Env, r: Intent, a: int, steps: seq<Step>)
    requires Live(r) && Over(r, a)
    ensures Over(Run(env, r, steps), a)
    decreases |steps|
  {
    if steps != [] {
      StepFacts(env, r, steps[0]);
      StaysOver(env, Next(env, r, steps[0]), a, steps[1..]);
    }
  }

  function Effective(env: Env, r: Intent, steps: seq<Step>): nat
    decreases |steps|
  {
    if steps == [] then 0
    else (if Next(env, r, steps[0]) != r then 1 else 0) + Effective(env, Next(env, r, steps[0]), steps[1..])
  }

  function Claims(env: Env, r: Intent, steps: seq<Step>): nat
    decreases |steps|
  {
    if steps == [] then 0
    else
      (if steps[0].ClaimStep? && Next(env, r, steps[0]) != r then 1 else 0)
      + Claims(env, Next(env, r, steps[0]), steps[1..])
  }

  function TerminalTransitions(env: Env, r: Intent, steps: seq<Step>): nat
    decreases |steps|
  {
    if steps == [] then 0
    else
      (if !Terminal(r) && Terminal(Next(env, r, steps[0])) then 1 else 0)
      + TerminalTransitions(env, Next(env, r, steps[0]), steps[1..])
  }

  /**
   Over any run from a fresh intent: the constraints hold, the attempt count is the number of claims, at most
   `max` claims and `2*max` effective statements happen, and the row turns terminal at most once.
   */
  lemma {:induction false} RunFacts(env: Env, r: Intent, steps: seq<Step>)
    requires Live(r)
    ensures
      var q := Run(env, r, steps);
      && Live(q) && SameIdentity(r, q)
      && q.attempts == r.attempts + Claims(env, r, steps)
      && Effective(env, r, steps) + Measure(q) <= Measure(r)
      && TerminalTransitions(env, r, steps) == (if !Terminal(r) && Terminal(q) then 1 else 0)
      && (Terminal(r) ==> q == r)
    decreases |steps|
  {
    if steps != [] {
      StepFacts(env, r, steps[0]);
      RunFacts(env, Next(env, r, steps[0]), steps[1..]);
    }
  }

  lemma FreshIntentBounds(env: Env, ownership: Ownership, contextId: string, eventId: string, channel: Channel, destination: string, max: int,
                          root: string, now: int, steps: seq<Step>)
    requires 1 <= max <= 5
    ensures
      var r := NewIntent(ownership, contextId, eventId, channel, destination, max, root, now);
      Live(Run(env, r, steps)) && Claims(env, r, steps) <= max && Effective(env, r, steps) <= 2 * max
      && TerminalTransitions(env, r, steps) <= 1
  {
    RunFacts(env, NewIntent(ownership, contextId, eventId, channel, destination, max, root, now), steps);
  }

  /** A row that is not terminal can always be moved once its times have passed: by a claim, or else by exhaustion. */
  lemma NeverStuck(env: Env, r: Intent, now: int, token: string)
    requires Live(r) && !Terminal(r)
    requires r.available <= now && (r.expires.Some? ==> r.expires.value <= now)
    ensures (Next(env, r, ClaimStep(now, token)) != r) <==> (Next(env, r, ExhaustStep(now)) == r)
  {}

  // ---------------------------------------------------------------- what a statement writes

  /** Due for a worker: waiting and available, or leased and expired. */
  predicate Due(r: Intent, now: int) {
    || (r.status == Pending && now >= r.available)
    || (r.status == Leased && r.expires.Some? && now >= r.expires.value)
  }

  /** The lease, column by column, and in time. */
  predicate HeldUnder(r: Intent, l: Lease, now: int) {
    && (r.status, r.token, r.attempts, r.max) == (Leased, Some(l.token), l.attempts, l.max)
    && (r.channel, r.destination, r.root) == (l.channel, l.destination, l.root)
    && r.expires.Some? && now < r.expires.value
  }

  /** A claim takes a due row with attempts left, for five minutes and one attempt more, and clears what was stored. */
  lemma ClaimWrites(env: Env, r: Intent, now: int, token: string)
    ensures
      var q := Next(env, r, ClaimStep(now, token));
      && (q != r <==> Due(r, now) && r.attempts < r.max)
      && (q != r ==>
            && (q.status, q.attempts, q.token, q.expires) == (Leased, r.attempts + 1, Some(token), Some(now + 300))
            && q.rendered.None? && q.reason.None? && q.available == r.available && SameIdentity(q, r))
  {
  }

  /** A sweep ends a due row whose attempts are used up. */
  lemma ExhaustWrites(env: Env, r: Intent, now: int)
    ensures
      var q := Next(env, r, ExhaustStep(now));
      && (q != r <==> Due(r, now) && r.attempts >= r.max)
      && (q != r ==>
            && (q.status, q.attempts, q.token, q.expires) == (NotSent, r.attempts, None, None)
            && q.rendered.None? && q.reason == Some("retry_exhausted") && q.available == r.available && SameIdentity(q, r))
  {
  }

  /** A stored row is the result, word for word, and no longer leased. */
  predicate Stores(q: Intent, r: Intent, result: SinkIntent) {
    && (q.status, q.rendered, q.reason) == (result.status, result.rendered, result.reason)
    && q.token.None? && q.expires.None?
    && (q.attempts, q.available) == (r.attempts, r.available) && SameIdentity(q, r)
  }

  /** A completion stores what the sink rendered: under the row's lease, for its destination and idempotency key. */
  lemma CompleteWrites(env: Env, r: Intent, l: Lease, result: SinkIntent, now: int)
    ensures
      var q := Next(env, r, CompleteStep(l, result, now));
      && (q != r <==>
            && HeldUnder(r, l, now) && IsHexKey(result.key) && 1 <= |result.destination| <= 256
            && ((result.status == RenderedIntent && result.rendered.Some? && result.reason.None?)
                || (result.status == NotSent && result.rendered.None? && result.reason.Some? && |result.reason.value| <= 256))
            && (result.channel, result.destination) == (r.channel, r.destination)
            && l.key == result.key == IdempotencyKey(env, r.contextId, r.channel, r.destination))
      && (q != r ==> Stores(q, r, result))
  {
  }

  /** A failure puts the row back for 30, 60, 120, 240 and then 300 seconds, or ends it after its last attempt. */
  lemma FailWrites(env: Env, r: Intent, l: Lease, now: int, errorClass: string)
    requires l.attempts >= 1
    ensures
      var q := Next(env, r, FailStep(l, now, errorClass));
      && (q != r <==> HeldUnder(r, l, now))
      && (q != r ==>
            && q.attempts == r.attempts && q.token.None? && q.expires.None? && q.rendered.None? && SameIdentity(q, r)
            && (q.status == NotSent <==> r.attempts >= r.max)
            && (r.attempts >= r.max ==> q.reason == Some("render_error:" + SafeErrorClass(errorClass)) && q.available == r.available)
            && (r.attempts < r.max ==>
                  && q.status == Pending && q.reason.None?
                  && q.available == now + (match r.attempts case 1 => 30 case 2 => 60 case 3 => 120 case 4 => 240 case _ => 300)))
  {
    DelayTable(l.attempts);
  }

  lemma DelayTable(n: int)
    requires n >= 1
    ensures RetryDelay(n) == match n case 1 => 30 case 2 => 60 case 3 => 120 case 4 => 240 case _ => 300
  {
    if n >= 5 {
      Pow2Grows(n - 5);
    }
  }

  lemma {:induction false} Pow2Grows(n: nat)
    ensures Pow2(n + 4) >= 16
  {
    if n > 0 {
      Pow2Grows(n - 1);
    } else {
      assert Pow2(4) == 2 * Pow2(3) && Pow2(3) == 2 * Pow2(2);
    }
  }

  /** Only a short word of harmless characters is kept of an error's class. */
  lemma SafeClass(s: string)
    ensures |SafeErrorClass(s)| <= 64
    ensures forall c | c in SafeErrorClass(s) :: 'a' <= c <= 'z' || 'A' <= c <= 'Z' || '0' <= c <= '9' || c in "_.-"
    ensures s != "" && |s| <= 64 && (forall c | c in s :: 'a' <= c <= 'z' || 'A' <= c <= 'Z' || '0' <= c <= '9' || c in "_.-") ==>
              SafeErrorClass(s) == s
  {
    assert forall i | 0 <= i < |s| :: s[i] in s;
  }

  /** How a row that was open came to be closed by a step. */
  predicate ClosedBy(q: Intent, r: Intent, s: Step) {
    match s
    case ClaimStep(_, _) => false
    case ExhaustStep(_) => q.status == NotSent && q.rendered.None? && q.reason == Some("retry_exhausted") && q.attempts >= q.max
    case FailStep(_, _, e) => q.status == NotSent && q.rendered.None? && q.reason == Some("render_error:" + SafeErrorClass(e)) && q.attempts >= q.max
    case CompleteStep(_, result, _) => Stores(q, r, result) && (result.channel, result.destination) == (q.channel, q.destination)
  }

  /**
   What a closed row holds. In any run that closes an open row, one step closed it, and the row holds to the end what
   that step carried: a rendered payload is the payload of the completing step, and a reason is that step's reason.
   */
  lemma {:induction false} ClosedOnce(env: Env, r: Intent, steps: seq<Step>) returns (k: nat)
    requires Live(r) && !Terminal(r) && Terminal(Run(env, r, steps))
    ensures k < |steps| && !Terminal(Run(env, r, steps[..k]))
    ensures Run(env, r, steps) == Next(env, Run(env, r, steps[..k]), steps[k])
    ensures ClosedBy(Run(env, r, steps), Run(env, r, steps[..k]), steps[k])
    ensures Run(env, r, steps).rendered.Some? ==> steps[k].CompleteStep? && steps[k].result.rendered == Run(env, r, steps).rendered
    decreases |steps|
  {
    var next := Next(env, r, steps[0]);
    StepFacts(env, r, steps[0]);
    if Terminal(next) {
      k := 0;
      RunFacts(env, next, steps[1..]);
      assert steps[..0] == [];
      assert ClosedBy(next, r, steps[0]);
    } else {
      var j := ClosedOnce(env, next, steps[1..]);
      k := j + 1;
      assert steps[..k][0] == steps[0] && steps[..k][1..] == steps[1..][..j];
    }
  }
}
