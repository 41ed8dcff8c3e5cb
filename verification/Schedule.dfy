/**
 The claim protocol of scheduled watch rules (alert_triggers.py) and the operator's edits of a rule
 (watch_rules.py). Times are microseconds since the epoch; every statement is one atomic step, and the
 clock readings handed to the steps are arbitrary, even backward.
 */
module Schedule {
  import opened Json
  import opened Evaluation

  const MAX_TIME: int := 253402300799999999
  const SECOND: int := 1000000
  const CLAIM_DURATION: int := 300 * SECOND

  datatype Kind = EventDriven | Interval | Edgar

  /** The columns of watch_rules the protocol reads or writes. */
  datatype Rule = Rule(
    tenant: string, issuer: Option<string>, portfolio: Option<string>, signal: Signal, version: int,
    enabled: bool, paused: bool, kind: Kind, interval: Option<int>, next: Option<int>, cursor: Option<string>,
    token: Option<string>, expires: Option<int>, attempts: int, last: Option<int>)

  datatype Claim = Claim(
    ruleId: string, token: string, expires: int, scheduledFor: int, kind: Kind, interval: int,
    signal: Signal, version: int, attempts: int)

  predicate Active(r: Rule) { r.enabled && !r.paused && !r.kind.EventDriven? }

  predicate AtOrBefore(t: Option<int>, now: int) { t.Some? && t.value <= now }

  predicate Eligible(r: Rule, now: int) {
    Active(r) && AtOrBefore(r.next, now) && r.attempts < 5 && (r.token.None? || AtOrBefore(r.expires, now))
  }

  predicate ExpiredFifth(r: Rule, now: int) {
    Active(r) && r.attempts == 5 && r.token.Some? && AtOrBefore(r.expires, now)
  }

  function Reaped(r: Rule, now: int): Rule {
    r.(paused := true, next := None, token := None, expires := None, last := Some(now))
  }

  function Claimed(r: Rule, now: int, token: string): Rule {
    r.(token := Some(token), expires := Some(now + CLAIM_DURATION), attempts := r.attempts + 1)
  }

  predicate Owns(r: Rule, c: Claim, now: int) {
    r.token == Some(c.token) && r.expires.Some? && r.expires.value > now && r.attempts == c.attempts
  }

  // ---------------------------------------------------------------- next slot

  /** A timedelta: days, seconds and microseconds, the last two normalised. */
  datatype Delta = Delta(days: int, seconds: int, micros: int)

  predicate Normal(d: Delta) { 0 <= d.seconds < 86400 && 0 <= d.micros < SECOND }

  function Elapsed(micros: int): Delta {
    Delta(micros / (86400 * SECOND), micros % (86400 * SECOND) / SECOND, micros % SECOND)
  }

  function TotalMicros(d: Delta): int { (d.days * 86400 + d.seconds) * SECOND + d.micros }

  /** `_next_interval_slot`; None where the source raises OverflowError. */
  function NextSlot(base: int, interval: int, now: int): Option<int>
    requires interval > 0
  {
    if base > now then Some(base)
    else
      var slots := TotalMicros(Elapsed(now - base)) / (interval * SECOND) + 1;
      var future := base + slots * (interval * SECOND);
      if future > MAX_TIME || future <= now then None else Some(future)
  }

  /** Splitting an elapsed time and adding it up again loses nothing, and the split is the normalised one. */
  lemma ElapsedExact(micros: int, d: Delta)
    ensures Normal(Elapsed(micros)) && TotalMicros(Elapsed(micros)) == micros
    ensures Normal(d) && TotalMicros(d) == micros ==> d == Elapsed(micros)
  {
    var day := 86400 * SECOND;
    assert micros == micros / day * day + micros % day;
    assert micros % day == micros % day / SECOND * SECOND + micros % day % SECOND;
    assert micros == (micros / day * 86400 + micros % day / SECOND) * SECOND + micros % day % SECOND;
    RemainderUnique(micros, micros / day * 86400 + micros % day / SECOND, micros % day % SECOND, SECOND);
    if Normal(d) && TotalMicros(d) == micros {
      RemainderUnique(micros, d.days * 86400 + d.seconds, d.micros, SECOND);
      RemainderUnique(micros, d.days, d.seconds * SECOND + d.micros, day);
    }
  }

  lemma MultipleAtLeast(a: int, m: int)
    requires a >= 1 && m > 0
    ensures a * m >= m
  {
    assert a * m == (a - 1) * m + m;
  }

  lemma SmallMultiple(a: int, m: int)
    requires m > 0 && -m < a * m < m
    ensures a == 0
  {
    if a > 0 {
      MultipleAtLeast(a, m);
    } else if a < 0 {
      MultipleAtLeast(-a, m);
    }
  }

  lemma RemainderUnique(n: int, q: int, r: int, m: int)
    requires m > 0 && n == q * m + r && 0 <= r < m
    ensures n / m == q && n % m == r
  {
    assert n == n / m * m + n % m;
    assert (n / m - q) * m == r - n % m;
    SmallMultiple(n / m - q, m);
  }

  lemma SlotsMonotone(base: int, step: int, j: int, k: int)
    requires step > 0 && j <= k
    ensures base + j * step <= base + k * step
  {
    assert (k - j) * step >= 0;
  }

  /**
   The slot a completion moves to is `base` plus the least number of whole intervals that puts it after now;
   the step fails exactly when no representable time is such a slot.
   */
  lemma NextSlotLeast(base: int, interval: int, now: int)
    requires interval > 0 && base <= MAX_TIME && now <= MAX_TIME
    ensures
      var step := interval * SECOND;
      match NextSlot(base, interval, now)
      case Some(t) =>
        exists k: int :: 0 <= k && t == base + k * step && now < t <= MAX_TIME
                         && forall j: int :: 0 <= j < k ==> base + j * step <= now
      case None => forall k: int :: 0 <= k && base + k * step > now ==> base + k * step > MAX_TIME
  {
    var step := interval * SECOND;
    if base > now {
      assert base == base + 0 * step;
    } else {
      var gap := now - base;
      ElapsedExact(gap, Elapsed(gap));
      var k := gap / step + 1;
      SlotsAround(base, step, now, k);
      var t := base + k * step;
      assert NextSlot(base, interval, now) == if t > MAX_TIME then None else Some(t);
    }
  }

  lemma SlotsAround(base: int, step: int, now: int, k: int)
    requires step > 0 && base <= now && k == (now - base) / step + 1
    ensures 0 <= k && now < base + k * step
    ensures forall j: int :: 0 <= j < k ==> base + j * step <= now
    ensures forall j: int :: 0 <= j && base + j * step > now ==> base + j * step >= base + k * step
  {
    var gap := now - base;
    assert gap == (k - 1) * step + gap % step;
    assert k * step == (k - 1) * step + step;
    forall j: int | 0 <= j < k ensures base + j * step <= now {
      SlotsMonotone(base, step, j, k - 1);
    }
    forall j: int | 0 <= j && base + j * step > now ensures base + j * step >= base + k * step {
      if j >= k {
        SlotsMonotone(base, step, k, j);
      }
    }
  }

  // ---------------------------------------------------------------- steps

  /** Backoff after a failed attempt: 60, 120, 240, 480 seconds. */
  function Backoff(attempts: int): int
    requires 1 <= attempts <= 4
  {
    [60, 120, 240, 480][attempts - 1] * SECOND
  }

  /** None leaves the cursor as it is. */
  function WithCursor(r: Rule, cursor: Option<Option<string>>): Rule {
    if cursor.Some? then r.(cursor := cursor.value) else r
  }

  function Completed(r: Rule, now: int, slot: int, cursor: Option<Option<string>>): Rule {
    WithCursor(r, cursor).(last := Some(now), next := Some(slot), token := None, expires := None, attempts := 0)
  }

  function Failed(r: Rule, attempts: int, now: int, cursor: Option<Option<string>>): Rule
    requires 1 <= attempts <= 5
  {
    var released := WithCursor(r, cursor).(last := Some(now), token := None, expires := None);
    if attempts == 5 || now + Backoff(attempts) > MAX_TIME then released.(paused := true, next := None)
    else released.(next := Some(now + Backoff(attempts)))
  }

  /** The operator's patch; None keeps a field. */
  datatype Patch = Patch(
    enabled: Option<bool>, paused: Option<bool>, kind: Option<Kind>, interval: Option<Option<int>>,
    next: Option<Option<int>>, signal: Option<Signal>, issuer: Option<Option<string>>, portfolio: Option<Option<string>>)

  function Or<T>(o: Option<T>, d: T): T { if o.Some? then o.value else d }

  predicate TouchesSchedule(p: Patch) { p.enabled.Some? || p.paused.Some? || p.kind.Some? || p.interval.Some? || p.next.Some? }

  /** The merged command's schedule after `_merged_command`, when `_validate_schedule` accepts it. */
  function Merged(r: Rule, p: Patch): Option<Rule> {
    var kind := Or(p.kind, r.kind);
    var event := kind.EventDriven?;
    var interval := if event then None else Or(p.interval, r.interval);
    var next := if event then None else Or(p.next, r.next);
    var m := r.(enabled := Or(p.enabled, r.enabled), paused := Or(p.paused, r.paused), kind := kind, interval := interval,
                next := next, signal := Or(p.signal, r.signal), issuer := Or(p.issuer, r.issuer),
                portfolio := Or(p.portfolio, r.portfolio));
    if !event && !(interval.Some? && 60 <= interval.value <= 86400) then None
    else if !event && m.enabled && !m.paused && next.None? then None
    else Some(m)
  }

  /** `update_watch_rule` on one row: rejected, or the new row with the version moved on. */
  function Updated(r: Rule, p: Patch): Option<Rule> {
    match Merged(r, p)
    case None => None
    case Some(m) =>
      if r.token.Some? && TouchesSchedule(p) then None
      else
        var resumed := p.paused == Some(false) && r.paused && r.attempts >= 5 && !m.kind.EventDriven?;
        var v := m.(version := r.version + 1);
        Some(if m.kind.EventDriven? then v.(cursor := None, token := None, expires := None, last := None, attempts := 0)
             else if resumed then v.(attempts := 0)
             else v)
  }

  datatype Step =
    | ClaimStep(now: int, token: string)
    | ReapStep(now: int)
    | CompleteStep(claim: Claim, now: int, cursor: Option<Option<string>>)
    | FailStep(claim: Claim, now: int, cursor: Option<Option<string>>)
    | UpdateStep(patch: Patch)

  /** The row after one statement; a statement whose guard fails, or that raises, changes nothing. */
  function Next(r: Rule, s: Step): Rule {
    match s
    case ClaimStep(now, token) => if Eligible(r, now) && now + CLAIM_DURATION <= MAX_TIME then Claimed(r, now, token) else r
    case ReapStep(now) => if ExpiredFifth(r, now) then Reaped(r, now) else r
    case CompleteStep(c, now, cursor) =>
      if c.interval <= 0 || !Owns(r, c, now) then r
      else
        (match NextSlot(c.scheduledFor, c.interval, now)
         case Some(slot) => Completed(r, now, slot, cursor)
         case None => r)
    case FailStep(c, now, cursor) => if 1 <= c.attempts <= 5 && Owns(r, c, now) then Failed(r, c.attempts, now, cursor) else r
    case UpdateStep(p) => (match Updated(r, p) case Some(n) => n case None => r)
  }

  /** The table's CHECK constraints. */
  predicate Checks(r: Rule) {
    && (r.kind.EventDriven? ==>
          r.interval.None? && r.next.None? && r.cursor.None? && r.token.None? && r.expires.None? && r.last.None? && r.attempts == 0)
    && (!r.kind.EventDriven? ==>
          r.interval.Some? && 60 <= r.interval.value <= 86400 && (!r.enabled || r.paused || r.next.Some?))
    && (r.token.Some? <==> r.expires.Some?)
    && 0 <= r.attempts <= 5
  }

  /** A fifth attempt is either still leased or has paused the rule. */
  predicate Live(r: Rule) { Checks(r) && (r.attempts == 5 && r.token.None? ==> r.paused) }

  predicate NewRule(r: Rule) { Checks(r) && r.token.None? && r.attempts == 0 }

  function Run(r: Rule, steps: seq<Step>): Rule
    decreases |steps|
  {
    if steps == [] then r else Run(Next(r, steps[0]), steps[1..])
  }

  lemma StepKeepsLive(r: Rule, s: Step)
    requires Live(r)
    ensures Live(Next(r, s))
  {
    if s.FailStep? || s.CompleteStep? {
      assert Owns(r, s.claim, s.now) ==> !r.kind.EventDriven?;
    }
  }

  /**
   No scheduled rule is ever wedged. After any run of the protocol and of operator edits, an enabled unpaused
   scheduled rule has a due time, and once that time and any lease on it have passed it is claimable or reapable,
   and exactly one of the two.
   */
  lemma {:induction false} NeverWedged(r: Rule, steps: seq<Step>, now: int)
    requires NewRule(r)
    ensures
      var q := Run(r, steps);
      && Live(q)
      && (Active(q) ==> q.next.Some?)
      && (Active(q) && q.next.value <= now && (q.expires.Some? ==> q.expires.value <= now)
          ==> (Eligible(q, now) <==> !ExpiredFifth(q, now)))
  {
    RunKeepsLive(r, steps);
  }

  lemma {:induction false} RunKeepsLive(r: Rule, steps: seq<Step>)
    requires Live(r)
    ensures Live(Run(r, steps))
    decreases |steps|
  {
    if steps != [] {
      StepKeepsLive(r, steps[0]);
      RunKeepsLive(Next(r, steps[0]), steps[1..]);
    }
  }

  predicate IsClaim(r: Rule, s: Step) { s.ClaimStep? && Next(r, s) != r }

  /** A step that sets the attempt count back to zero: a completion, or an operator resuming or re-purposing the rule. */
  predicate Resets(r: Rule, s: Step) { (s.CompleteStep? || s.UpdateStep?) && Next(r, s).attempts == 0 }

  function Claims(r: Rule, steps: seq<Step>): nat
    decreases |steps|
  {
    if steps == [] then 0
    else (if IsClaim(r, steps[0]) then 1 else 0) + Claims(Next(r, steps[0]), steps[1..])
  }

  predicate NoReset(r: Rule, steps: seq<Step>)
    decreases |steps|
  {
    steps == [] || (!Resets(r, steps[0]) && NoReset(Next(r, steps[0]), steps[1..]))
  }

  /** Between two resets the attempt count counts the claims, so at most five happen. */
  lemma {:induction false} AtMostFiveClaims(r: Rule, steps: seq<Step>)
    requires Live(r) && NoReset(r, steps)
    ensures Run(r, steps).attempts == r.attempts + Claims(r, steps)
    ensures Claims(r, steps) <= 5 - r.attempts
    decreases |steps|
  {
    if steps != [] {
      StepKeepsLive(r, steps[0]);
      AtMostFiveClaims(Next(r, steps[0]), steps[1..]);
    }
  }

  /** No claim of the run re-uses the token. */
  predicate Unused(token: string, steps: seq<Step>) {
    forall i | 0 <= i < |steps| :: steps[i].ClaimStep? ==> steps[i].token != token
  }

  predicate Inert(r: Rule, c: Claim, now: int, cursor: Option<Option<string>>) {
    && !Owns(r, c, now)
    && Next(r, CompleteStep(c, now, cursor)) == r
    && Next(r, FailStep(c, now, cursor)) == r
  }

  /**
   Scheduling is fenced by the token. Once the row no longer carries a lease's token, no completion, failure or
   lock check under that lease has any effect again, whatever the clocks read and although completions reset the
   attempt count.
   */
  lemma {:induction false} LostLeaseIsInert(r: Rule, c: Claim, steps: seq<Step>, now: int, cursor: Option<Option<string>>)
    requires r.token != Some(c.token) && Unused(c.token, steps)
    ensures Run(r, steps).token != Some(c.token)
    ensures Inert(Run(r, steps), c, now, cursor)
    decreases |steps|
  {
    if steps != [] {
      assert Unused(c.token, steps[1..]);
      LostLeaseIsInert(Next(r, steps[0]), c, steps[1..], now, cursor);
    }
  }

  // ---------------------------------------------------------------- what a statement writes

  /** Enabled, not paused and on a schedule. */
  predicate Runs(r: Rule) { r.enabled && !r.paused && r.kind in {Interval, Edgar} }

  /** The protocol columns apart, a statement leaves a rule as it is. */
  predicate SameRule(q: Rule, r: Rule) {
    && (q.tenant, q.issuer, q.portfolio, q.signal, q.version) == (r.tenant, r.issuer, r.portfolio, r.signal, r.version)
    && (q.enabled, q.kind, q.interval) == (r.enabled, r.kind, r.interval)
  }

  /** The lease is this row's, for this attempt and in time. */
  predicate HeldUnder(r: Rule, c: Claim, now: int) {
    (r.token, r.attempts) == (Some(c.token), c.attempts) && r.expires.Some? && now < r.expires.value
  }

  /** A claim leases a due rule nobody holds for five minutes, as its next attempt of at most five. */
  lemma ClaimWrites(r: Rule, now: int, token: string)
    ensures
      var q := Next(r, ClaimStep(now, token));
      && (q != r <==>
            && Runs(r) && r.next.Some? && now >= r.next.value && r.attempts < 5 && now + 300000000 <= 253402300799999999
            && (r.token.None? || (r.expires.Some? && now >= r.expires.value)))
      && (q != r ==>
            && (q.token, q.expires, q.attempts) == (Some(token), Some(now + 300000000), r.attempts + 1)
            && (q.paused, q.next, q.cursor, q.last) == (r.paused, r.next, r.cursor, r.last) && SameRule(q, r))
  {
  }

  /** A reap pauses a rule whose fifth lease has expired. */
  lemma ReapWrites(r: Rule, now: int)
    ensures
      var q := Next(r, ReapStep(now));
      && (q != r <==> Runs(r) && r.attempts == 5 && r.token.Some? && r.expires.Some? && now >= r.expires.value)
      && (q != r ==>
            && q.paused && q.next.None? && q.token.None? && q.expires.None? && q.last == Some(now)
            && (q.attempts, q.cursor) == (r.attempts, r.cursor) && SameRule(q, r))
  {
  }

  /**
   A completion under the row's own lease frees it, resets its attempts and moves it to the first slot after now, whole
   intervals from when it was due; it does nothing where no representable time is such a slot.
   */
  lemma CompleteWrites(r: Rule, c: Claim, now: int, cursor: Option<Option<string>>)
    requires c.interval > 0 && c.scheduledFor <= MAX_TIME && now <= MAX_TIME
    ensures
      var q := Next(r, CompleteStep(c, now, cursor));
      var step := c.interval * 1000000;
      && (q != r <==> HeldUnder(r, c, now) && exists k: int :: 0 <= k && now < c.scheduledFor + k * step <= MAX_TIME)
      && (q != r ==>
            && q.token.None? && q.expires.None? && q.attempts == 0 && q.last == Some(now) && q.paused == r.paused && SameRule(q, r)
            && q.cursor == (match cursor case Some(text) => text case None => r.cursor)
            && q.next.Some? && now < q.next.value
            && (exists k: int :: 0 <= k && q.next.value == c.scheduledFor + k * step)
            && (forall k: int :: 0 <= k && now < c.scheduledFor + k * step ==> q.next.value <= c.scheduledFor + k * step))
  {
    NextSlotLeast(c.scheduledFor, c.interval, now);
    var step := c.interval * SECOND;
    var slot := NextSlot(c.scheduledFor, c.interval, now);
    if slot.Some? {
      var n: int :| 0 <= n && slot.value == c.scheduledFor + n * step && forall j: int :: 0 <= j < n ==> c.scheduledFor + j * step <= now;
      forall k: int | 0 <= k && now < c.scheduledFor + k * step ensures slot.value <= c.scheduledFor + k * step {
        SlotsMonotone(c.scheduledFor, step, n, k);
      }
    }
  }

  /** A failure under the row's own lease puts it off by one, two, four and eight minutes, and pauses it the fifth time. */
  lemma FailWrites(r: Rule, c: Claim, now: int, cursor: Option<Option<string>>)
    requires 1 <= c.attempts <= 5
    ensures
      var q := Next(r, FailStep(c, now, cursor));
      var due := now + (match c.attempts case 1 => 60 case 2 => 120 case 3 => 240 case _ => 480) * 1000000;
      && (q != r <==> HeldUnder(r, c, now))
      && (q != r ==>
            && q.token.None? && q.expires.None? && q.attempts == r.attempts && q.last == Some(now) && SameRule(q, r)
            && q.cursor == (match cursor case Some(text) => text case None => r.cursor)
            && (if c.attempts == 5 || due > MAX_TIME then q.paused && q.next.None? else q.paused == r.paused && q.next == Some(due)))
  {
  }

  /** An operator's edit is refused for a schedule that makes no sense, and for the schedule of a rule under lease. */
  lemma EditRefused(r: Rule, p: Patch)
    ensures
      var kind := if p.kind.Some? then p.kind.value else r.kind;
      var interval := if p.interval.Some? then p.interval.value else r.interval;
      var next := if p.next.Some? then p.next.value else r.next;
      var enabled := if p.enabled.Some? then p.enabled.value else r.enabled;
      var paused := if p.paused.Some? then p.paused.value else r.paused;
      Updated(r, p).None? <==>
        || (kind != EventDriven && (interval.None? || interval.value < 60 || interval.value > 86400))
        || (kind != EventDriven && enabled && !paused && next.None?)
        || (r.token.Some? && (p.enabled.Some? || p.paused.Some? || p.kind.Some? || p.interval.Some? || p.next.Some?))
  {
  }

  /**
   An accepted edit writes the patch and a new version. It keeps the lease columns and the attempts, except that an
   event-driven rule has none and that resuming a rule paused by its fifth attempt gives it five new ones.
   */
  lemma EditWrites(r: Rule, p: Patch)
    requires Updated(r, p).Some?
    ensures
      var q := Updated(r, p).value;
      && q.version == r.version + 1 && q.tenant == r.tenant
      && q.enabled == (if p.enabled.Some? then p.enabled.value else r.enabled)
      && q.paused == (if p.paused.Some? then p.paused.value else r.paused)
      && q.kind == (if p.kind.Some? then p.kind.value else r.kind)
      && q.signal == (if p.signal.Some? then p.signal.value else r.signal)
      && q.issuer == (if p.issuer.Some? then p.issuer.value else r.issuer)
      && q.portfolio == (if p.portfolio.Some? then p.portfolio.value else r.portfolio)
      && (q.kind == EventDriven ==>
            && q.interval.None? && q.next.None? && q.cursor.None? && q.token.None? && q.expires.None? && q.last.None? && q.attempts == 0)
      && (q.kind != EventDriven ==>
            && q.interval == (if p.interval.Some? then p.interval.value else r.interval)
            && q.next == (if p.next.Some? then p.next.value else r.next)
            && (q.cursor, q.token, q.expires, q.last) == (r.cursor, r.token, r.expires, r.last)
            && q.attempts == if p.paused == Some(false) && r.paused && r.attempts >= 5 then 0 else r.attempts)
  {
  }
}
