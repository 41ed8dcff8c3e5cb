/**
 Replaying completed runs page by page (alert_triggers.py:175-214 and 1098-1197): an opaque cursor over the order of
 completion and identifier, and the page loop that evaluates each run.
 */
module Replay {
  import opened Json
  import opened Strings
  import opened Base64

  const MAX_CURSOR: nat := 2048
  const MAX_RUN_ID: nat := 255
  const MAX_PAGE: nat := 500

  /** The standard library's JSON and ISO 8601 conversions; a time is a UTC instant. */
  datatype Codec = Codec(dumps: Json -> seq<Byte>, loads: seq<Byte> -> Option<Json>, iso: int -> string, parseIso: string -> Option<int>)

  datatype Cursor = Cursor(at: int, id: string)

  datatype Decoded = First | From(cursor: Cursor) | Invalid

  function Payload(k: Codec, c: Cursor): Json { JObj([Field("at", JStr(k.iso(c.at))), Field("id", JStr(c.id)), Field("v", JInt(1))]) }

  /** Cursor payloads have a text, and reading it back gives the payload. */
  ghost predicate ValidCodec(k: Codec) {
    && (forall c: Cursor :: k.dumps(Payload(k, c)) != [] && k.loads(k.dumps(Payload(k, c))) == Some(Payload(k, c)))
    && (forall t: int :: k.parseIso(k.iso(t)) == Some(t))
  }

  /** `_encode_completed_run_cursor` */
  function EncodeCursor(k: Codec, c: Cursor): string { Encode(k.dumps(Payload(k, c))) }

  function Keys(fields: seq<Field>): set<string> { set f | f in fields :: f.key }

  function FromPayload(k: Codec, j: Json): Decoded {
    if !j.JObj? || Keys(j.fields) != {"at", "id", "v"} then Invalid
    else
      var (at, id, v) := (Lookup(j.fields, "at"), Lookup(j.fields, "id"), Lookup(j.fields, "v"));
      if v != Some(JInt(1)) then Invalid
      else if id.None? || !id.value.JStr? || id.value.s == "" || |id.value.s| > MAX_RUN_ID then Invalid
      else if at.None? || !at.value.JStr? || k.parseIso(at.value.s).None? then Invalid
      else From(Cursor(k.parseIso(at.value.s).value, id.value.s))
  }

  /** `_decode_completed_run_cursor` */
  function DecodeCursor(k: Codec, value: Option<string>): Decoded {
    if value.None? then First
    else if value.value == "" || |value.value| > MAX_CURSOR then Invalid
    else
      var bytes := Decode(value.value);
      if bytes.None? then Invalid
      else
        var j := k.loads(bytes.value);
        if j.None? then Invalid else FromPayload(k, j.value)
  }

  lemma PayloadReads(k: Codec, c: Cursor)
    requires ValidCodec(k)
    ensures FromPayload(k, Payload(k, c)) == if c.id == "" || |c.id| > MAX_RUN_ID then Invalid else From(c)
  {
    var fields := Payload(k, c).fields;
    assert fields[0].key == "at" && fields[1].key == "id" && fields[2].key == "v";
    assert Keys(fields) == {"at", "id", "v"};
    LookupThree(fields);
  }

  lemma LookupThree(fields: seq<Field>)
    requires |fields| == 3 && fields[0].key == "at" && fields[1].key == "id" && fields[2].key == "v"
    ensures Lookup(fields, "at") == Some(fields[0].val) && Lookup(fields, "id") == Some(fields[1].val) && Lookup(fields, "v") == Some(fields[2].val)
  {
    var (two, one) := (fields[..2], fields[..2][..1]);
    assert Lookup(fields, "at") == Lookup(two, "at") && Lookup(two, "at") == Lookup(one, "at");
    assert Lookup(fields, "id") == Lookup(two, "id");
  }

  /** The text spells this cursor: a bounded payload of version 1 with an identifier, a time and nothing else. */
  ghost predicate Spells(k: Codec, text: string, c: Cursor) {
    && 1 <= |text| <= 2048 && 1 <= |c.id| <= 255
    && Decode(text).Some? && k.loads(Decode(text).value).Some?
    && var j := k.loads(Decode(text).value).value;
    && j.JObj? && Keys(j.fields) == {"at", "id", "v"}
    && Holds(j.fields, "v", JInt(1)) && Holds(j.fields, "id", JStr(c.id))
    && exists at: string :: Holds(j.fields, "at", JStr(at)) && k.parseIso(at) == Some(c.at)
  }

  /** A text is taken for a cursor exactly when it spells it, and every other text is refused. */
  lemma DecodesIff(k: Codec, text: string)
    ensures forall c :: DecodeCursor(k, Some(text)) == From(c) <==> Spells(k, text, c)
    ensures DecodeCursor(k, Some(text)) != First
  {
    hide Decode, Lookup, Holds, Keys;
    forall c ensures DecodeCursor(k, Some(text)) == From(c) <==> Spells(k, text, c) {
      if Decode(text).Some? && k.loads(Decode(text).value).Some? {
        var j := k.loads(Decode(text).value).value;
        if j.JObj? {
          PayloadSpells(k, j.fields, c);
        }
      }
    }
  }

  lemma PayloadSpells(k: Codec, fields: seq<Field>, c: Cursor)
    ensures FromPayload(k, JObj(fields)) == From(c) <==>
            && 1 <= |c.id| <= 255 && Keys(fields) == {"at", "id", "v"} && Holds(fields, "v", JInt(1)) && Holds(fields, "id", JStr(c.id))
            && exists at: string :: Holds(fields, "at", JStr(at)) && k.parseIso(at) == Some(c.at)
  {
    hide Lookup, Holds, Keys;
    LookupIsLast(fields, "v", JInt(1));
    LookupIsLast(fields, "id", JStr(c.id));
    var at := Lookup(fields, "at");
    if at.Some? && at.value.JStr? {
      LookupIsLast(fields, "at", at.value);
    }
    forall s: string ensures Holds(fields, "at", JStr(s)) <==> at == Some(JStr(s)) {
      LookupIsLast(fields, "at", JStr(s));
    }
  }

  /**
   The cursor comes back exactly when its identifier has 1 to 255 characters and its payload at most 1536 bytes; any
   other cursor is refused.
   */
  lemma CursorRoundTrip(k: Codec, c: Cursor)
    requires ValidCodec(k)
    ensures
      var fits := 1 <= |c.id| <= MAX_RUN_ID && |k.dumps(Payload(k, c))| <= 1536;
      DecodeCursor(k, Some(EncodeCursor(k, c))) == if fits then From(c) else Invalid
  {
    hide Encode, Decode, Payload, FromPayload;
    var b := k.dumps(Payload(k, c));
    EncodedSize(b);
    RoundTrip(b);
    PayloadReads(k, c);
  }

  // ---------------------------------------------------------------- pages

  datatype Run = Run(id: string, completedAt: Option<int>, createdAt: int)

  function Order(r: Run): int { match r.completedAt case Some(t) => t case None => r.createdAt }

  predicate Earlier(at: int, id: string, r: Run) { at < Order(r) || (at == Order(r) && Below(id, r.id)) }

  /** The completed runs in query order; identifiers are unique, so the order is strict. */
  predicate Ordered(runs: seq<Run>) { forall i, j | 0 <= i < j < |runs| :: Earlier(Order(runs[i]), runs[i].id, runs[j]) }

  function After(runs: seq<Run>, d: Decoded): seq<Run>
    requires !d.Invalid?
  {
    if runs == [] then []
    else (if d.First? || Earlier(d.cursor.at, d.cursor.id, runs[0]) then [runs[0]] else []) + After(runs[1..], d)
  }

  /** When a run completed, or was created where that is not known. */
  predicate CompletedAt(r: Run, t: int) { if r.completedAt.Some? then r.completedAt == Some(t) else r.createdAt == t }

  /** Seeking past a cursor leaves exactly the runs completed later, or then and with a greater identifier. */
  lemma {:induction false} AfterIff(runs: seq<Run>, c: Cursor, r: Run, t: int)
    requires CompletedAt(r, t)
    ensures r in After(runs, From(c)) <==> r in runs && (t > c.at || (t == c.at && Below(c.id, r.id)))
  {
    hide Below;
    if runs != [] {
      AfterIff(runs[1..], c, r, t);
    }
  }

  function Min(a: nat, b: nat): nat { if a < b then a else b }

  function Limited(runs: seq<Run>, n: nat): seq<Run> { runs[..Min(n, |runs|)] }

  /** What triggering one run reports. */
  datatype Outcome = Raised | NotEvaluated | Evaluated(observations: nat, materialized: nat, failures: nat)

  function FailuresOf(o: Outcome): nat { match o case Evaluated(_, _, f) => f case _ => 1 }

  function ObservationsOf(o: Outcome): nat { match o case Evaluated(n, _, _) => n case _ => 0 }

  function MaterializedOf(o: Outcome): nat { match o case Evaluated(_, n, _) => n case _ => 0 }

  function Tally(page: seq<Run>, outcome: string -> Outcome, count: Outcome -> nat): nat {
    if page == [] then 0 else count(outcome(page[0].id)) + Tally(page[1..], outcome, count)
  }

  function CursorOf(r: Run): Cursor { Cursor(Order(r), r.id) }

  datatype Page = Page(visited: seq<Run>, failures: nat, next: Option<string>)

  /** One clean page after a decoded cursor. */
  function PageFrom(k: Codec, runs: seq<Run>, limit: nat, outcome: string -> Outcome, d: Decoded): Page
    requires !d.Invalid? && limit >= 1
  {
    var rows := Limited(After(runs, d), limit + 1);
    var page := Limited(rows, limit);
    var failures := Tally(page, outcome, FailuresOf);
    Page(page, failures,
         if failures == 0 && |rows| > limit && page != [] then Some(EncodeCursor(k, CursorOf(page[|page| - 1]))) else None)
  }

  datatype Reconciled = Refused | Done(page: Page, observations: nat, materialized: nat)

  lemma {:induction false} TallyMore(page: seq<Run>, outcome: string -> Outcome, count: Outcome -> nat, r: Run)
    ensures Tally(page + [r], outcome, count) == Tally(page, outcome, count) + count(outcome(r.id))
  {
    if page == [] {
      assert ([] + [r])[1..] == [];
    } else {
      assert (page + [r])[1..] == page[1..] + [r];
      TallyMore(page[1..], outcome, count, r);
    }
  }

  /** `reconcile_completed_runs`: one page, every run tried, failures counted, and a cursor only after a clean page. */
  method ReconcileCompletedRuns(k: Codec, runs: seq<Run>, outcome: string -> Outcome, limit: int, cursor: Option<string>)
      returns (r: Reconciled)
    ensures r.Refused? <==> !(1 <= limit <= 500) || DecodeCursor(k, cursor).Invalid?
    ensures r.Done? ==>
      r.page == PageFrom(k, runs, limit, outcome, DecodeCursor(k, cursor))
      && r.observations == Tally(r.page.visited, outcome, ObservationsOf) && r.materialized == Tally(r.page.visited, outcome, MaterializedOf)
  {
    hide DecodeCursor, EncodeCursor;
    if !(1 <= limit <= MAX_PAGE) {
      return Refused;
    }
    var d := DecodeCursor(k, cursor);
    if d.Invalid? {
      return Refused;
    }
    var rows := Limited(After(runs, d), limit + 1);
    var page := Limited(rows, limit);
    var observations: nat, materialized: nat, failures: nat := 0, 0, 0;
    var i := 0;
    while i < |page|
      invariant 0 <= i <= |page| && failures == Tally(page[..i], outcome, FailuresOf)
      invariant observations == Tally(page[..i], outcome, ObservationsOf) && materialized == Tally(page[..i], outcome, MaterializedOf)
    {
      TallyMore(page[..i], outcome, FailuresOf, page[i]);
      TallyMore(page[..i], outcome, ObservationsOf, page[i]);
      TallyMore(page[..i], outcome, MaterializedOf, page[i]);
      assert page[..i + 1] == page[..i] + [page[i]];
      match outcome(page[i].id) {
        case Raised => failures := failures + 1;
        case NotEvaluated => failures := failures + 1;
        case Evaluated(o, m, f) => observations, materialized, failures := observations + o, materialized + m, failures + f;
      }
      i := i + 1;
    }
    assert page[..i] == page;
    var next := None;
    if failures == 0 && |rows| > limit && page != [] {
      next := Some(EncodeCursor(k, CursorOf(page[|page| - 1])));
    }
    r := Done(Page(page, failures, next), observations, materialized);
  }

  // ---------------------------------------------------------------- following the cursor

  /** How far a caller has come: the cursor it holds, the clean pages behind it and the runs they visited. */
  datatype Progress = Progress(cursor: Option<string>, pages: nat, visited: seq<Run>, finished: bool)

  /** The caller's protocol: advance after a clean page, retry the same cursor after failures, stop without a next cursor. */
  function Attempt(k: Codec, runs: seq<Run>, limit: nat, outcome: string -> Outcome, p: Progress): Progress
    requires limit >= 1
  {
    var d := DecodeCursor(k, p.cursor);
    if p.finished || d.Invalid? then p
    else
      var page := PageFrom(k, runs, limit, outcome, d);
      if page.failures != 0 then p
      else Progress(if page.next.None? then p.cursor else page.next, p.pages + 1, p.visited + page.visited, page.next.None?)
  }

  function Attempts(k: Codec, runs: seq<Run>, limit: nat, outcomes: seq<string -> Outcome>): Progress
    requires limit >= 1
  {
    if outcomes == [] then Progress(None, 0, [], false)
    else Attempt(k, runs, limit, outcomes[|outcomes| - 1], Attempts(k, runs, limit, outcomes[..|outcomes| - 1]))
  }

  /** The runs' cursors survive their encoding. */
  ghost predicate CursorsFit(k: Codec, runs: seq<Run>) {
    ValidCodec(k) && forall r | r in runs :: DecodeCursor(k, Some(EncodeCursor(k, CursorOf(r)))) == From(CursorOf(r))
  }

  /** Exactly the runs whose identifiers and payloads fit have such cursors. */
  lemma CursorsFitIff(k: Codec, runs: seq<Run>)
    requires ValidCodec(k)
    ensures CursorsFit(k, runs) <==>
      forall r | r in runs :: 1 <= |r.id| <= MAX_RUN_ID && |k.dumps(Payload(k, CursorOf(r)))| <= 1536
  {
    hide DecodeCursor, EncodeCursor, Payload;
    forall r | r in runs
      ensures DecodeCursor(k, Some(EncodeCursor(k, CursorOf(r)))) == From(CursorOf(r))
        <==> 1 <= |r.id| <= MAX_RUN_ID && |k.dumps(Payload(k, CursorOf(r)))| <= 1536
    {
      CursorRoundTrip(k, CursorOf(r));
    }
  }

  lemma {:induction false} AfterNone(runs: seq<Run>)
    ensures After(runs, First) == runs
  {
    if runs != [] {
      AfterNone(runs[1..]);
      assert runs == [runs[0]] + runs[1..];
    }
  }

  lemma {:induction false} AfterAll(runs: seq<Run>, c: Cursor)
    requires forall r | r in runs :: Earlier(c.at, c.id, r)
    ensures After(runs, From(c)) == runs
  {
    if runs != [] {
      AfterAll(runs[1..], c);
      assert runs == [runs[0]] + runs[1..];
    }
  }

  lemma NotBoth(a: Run, b: Run)
    ensures !(Earlier(Order(a), a.id, b) && Earlier(Order(b), b.id, a)) && !Earlier(Order(a), a.id, a)
  {
    BelowTotal(a.id, b.id);
    BelowTotal(a.id, a.id);
  }

  /** Seeking past a run of the list continues right behind it. */
  lemma {:induction false} SeekPast(runs: seq<Run>, n: nat)
    requires Ordered(runs) && n < |runs|
    ensures After(runs, From(CursorOf(runs[n]))) == runs[n + 1..]
    decreases n
  {
    var c := CursorOf(runs[n]);
    NotBoth(runs[0], runs[n]);
    if n == 0 {
      AfterAll(runs[1..], c);
      assert [] + After(runs[1..], From(c)) == runs[1..];
    } else {
      assert runs[1..][n - 1] == runs[n] && runs[1..][n..] == runs[n + 1..];
      SeekPast(runs[1..], n - 1);
      assert [] + After(runs[1..], From(c)) == runs[n + 1..];
    }
  }

  /** The page a caller sees after n runs. */
  lemma PageAt(k: Codec, runs: seq<Run>, limit: nat, outcome: string -> Outcome, n: nat, d: Decoded)
    requires limit >= 1 && n <= |runs| && !d.Invalid? && After(runs, d) == runs[n..]
    ensures
      var page := PageFrom(k, runs, limit, outcome, d);
      page.visited == runs[n..Min(n + limit, |runs|)]
      && (page.failures == 0 ==> if n + limit < |runs| then page.next == Some(EncodeCursor(k, CursorOf(runs[n + limit - 1]))) else page.next.None?)
  {
    hide EncodeCursor, CursorOf, Tally;
    var rows := Limited(runs[n..], limit + 1);
    assert Limited(rows, limit) == runs[n..Min(n + limit, |runs|)];
  }

  /** How many runs a number of full pages covers. */
  function Covered(pages: nat, limit: nat): nat { pages * limit }

  lemma OnePageMore(pages: nat, limit: nat)
    ensures Covered(pages + 1, limit) == Covered(pages, limit) + limit
  {
  }

  /** Where a caller stands after any attempts. */
  ghost predicate OnTrack(k: Codec, runs: seq<Run>, limit: nat, p: Progress) {
    var n := |p.visited|;
    && n == Min(Covered(p.pages, limit), |runs|) && p.visited == runs[..n]
    && (p.finished <==> p.pages >= 1 && Covered(p.pages, limit) >= |runs|)
    && (!p.finished ==> !DecodeCursor(k, p.cursor).Invalid? && After(runs, DecodeCursor(k, p.cursor)) == runs[n..])
  }

  lemma Extend(runs: seq<Run>, n: nat, m: nat)
    requires n <= m <= |runs|
    ensures runs[..n] + runs[n..m] == runs[..m]
  {
  }

  lemma AttemptStaysOnTrack(k: Codec, runs: seq<Run>, limit: nat, outcome: string -> Outcome, p: Progress)
    requires limit >= 1 && Ordered(runs) && CursorsFit(k, runs) && OnTrack(k, runs, limit, p)
    ensures OnTrack(k, runs, limit, Attempt(k, runs, limit, outcome, p))
  {
    hide DecodeCursor, EncodeCursor, PageFrom, Ordered, Covered, CursorsFit;
    var d := DecodeCursor(k, p.cursor);
    if !p.finished {
      var n := |p.visited|;
      PageAt(k, runs, limit, outcome, n, d);
      OnePageMore(p.pages, limit);
      Extend(runs, n, Min(n + limit, |runs|));
      if n + limit < |runs| {
        NextCursor(k, runs, n + limit - 1);
      }
    }
  }

  lemma NextCursor(k: Codec, runs: seq<Run>, n: nat)
    requires Ordered(runs) && CursorsFit(k, runs) && n < |runs|
    ensures
      var d := DecodeCursor(k, Some(EncodeCursor(k, CursorOf(runs[n]))));
      !d.Invalid? && After(runs, d) == runs[n + 1..]
  {
    hide DecodeCursor, EncodeCursor;
    assert runs[n] in runs;
    SeekPast(runs, n);
  }

  /**
   Replay is complete. However attempts fail and are retried, the clean pages visit the runs in order, each once and
   none skipped; and the replay finishes exactly when max(1, ceil(runs / limit)) pages were clean, having visited all.
   */
  lemma {:induction false} ReplayVisitsAll(k: Codec, runs: seq<Run>, limit: nat, outcomes: seq<string -> Outcome>)
    requires limit >= 1 && Ordered(runs) && CursorsFit(k, runs)
    ensures
      var p := Attempts(k, runs, limit, outcomes);
      && OnTrack(k, runs, limit, p)
      && p.visited == runs[..Min(Covered(p.pages, limit), |runs|)]
      && (p.finished <==> p.pages >= 1 && Covered(p.pages, limit) >= |runs|) && (p.finished ==> p.visited == runs)
    decreases |outcomes|
  {
    hide DecodeCursor, Attempt, Ordered, CursorsFit;
    if outcomes == [] {
      AfterNone(runs);
      FirstDecodes(k);
    } else {
      ReplayVisitsAll(k, runs, limit, outcomes[..|outcomes| - 1]);
      AttemptStaysOnTrack(k, runs, limit, outcomes[|outcomes| - 1], Attempts(k, runs, limit, outcomes[..|outcomes| - 1]));
    }
  }

  lemma FirstDecodes(k: Codec)
    ensures DecodeCursor(k, None) == First
  {
  }

  /** The pages of a finished replay: the least number that covers the runs, and at least one. */
  lemma {:induction false} PagesNeeded(k: Codec, runs: seq<Run>, limit: nat, outcomes: seq<string -> Outcome>)
    requires limit >= 1 && Ordered(runs) && CursorsFit(k, runs)
    ensures
      var p := Attempts(k, runs, limit, outcomes);
      p.pages >= 1 ==> Covered(p.pages - 1, limit) < |runs| || p.pages == 1
    decreases |outcomes|
  {
    hide DecodeCursor, PageFrom, Ordered, CursorsFit;
    if outcomes != [] {
      var before := outcomes[..|outcomes| - 1];
      PagesNeeded(k, runs, limit, before);
      ReplayVisitsAll(k, runs, limit, before);
    }
  }

  // ---------------------------------------------------------------- getting through

  /** Every run of these was evaluated without a failure. */
  predicate Clean(runs: seq<Run>, outcome: string -> Outcome) {
    forall r | r in runs :: outcome(r.id).Evaluated? && outcome(r.id).failures == 0
  }

  lemma {:induction false} CleanTally(page: seq<Run>, outcome: string -> Outcome)
    ensures Tally(page, outcome, FailuresOf) == 0 <==> Clean(page, outcome)
  {
    if page != [] {
      CleanTally(page[1..], outcome);
    }
  }

  /** The runs a caller is to visit next. */
  function NextRuns(runs: seq<Run>, limit: nat, p: Progress): seq<Run>
    requires |p.visited| <= |runs|
  {
    runs[|p.visited|..Min(|p.visited| + limit, |runs|)]
  }

  /** An attempt gets a caller past its page exactly when every run on it is clean; otherwise nothing moves. */
  lemma AttemptMoves(k: Codec, runs: seq<Run>, limit: nat, outcome: string -> Outcome, p: Progress)
    requires limit >= 1 && Ordered(runs) && CursorsFit(k, runs) && OnTrack(k, runs, limit, p) && !p.finished
    ensures
      var (next, q) := (NextRuns(runs, limit, p), Attempt(k, runs, limit, outcome, p));
      if Clean(next, outcome) then q.visited == p.visited + next && q.pages == p.pages + 1 else q == p
  {
    hide DecodeCursor, EncodeCursor, PageFrom, Ordered, CursorsFit, Clean;
    var d := DecodeCursor(k, p.cursor);
    PageAt(k, runs, limit, outcome, |p.visited|, d);
    PageTally(k, runs, limit, outcome, d);
    CleanTally(NextRuns(runs, limit, p), outcome);
  }

  lemma PageTally(k: Codec, runs: seq<Run>, limit: nat, outcome: string -> Outcome, d: Decoded)
    requires limit >= 1 && !d.Invalid?
    ensures PageFrom(k, runs, limit, outcome, d).failures == Tally(PageFrom(k, runs, limit, outcome, d).visited, outcome, FailuresOf)
  {
  }

  /** A replay without failures gets through all the runs, in as many attempts as there are pages. */
  lemma {:induction false} ReplayFinishes(k: Codec, runs: seq<Run>, limit: nat, outcomes: seq<string -> Outcome>)
    requires limit >= 1 && Ordered(runs) && CursorsFit(k, runs) && forall n | 0 <= n < |outcomes| :: Clean(runs, outcomes[n])
    ensures
      var p := Attempts(k, runs, limit, outcomes);
      && (!p.finished ==> p.pages == |outcomes|)
      && (|outcomes| >= 1 && Covered(|outcomes|, limit) >= |runs| ==> p.finished && p.visited == runs)
    decreases |outcomes|
  {
    hide DecodeCursor, Attempt, Ordered, CursorsFit, Covered;
    ReplayVisitsAll(k, runs, limit, outcomes);
    if outcomes != [] {
      var before := outcomes[..|outcomes| - 1];
      ReplayFinishes(k, runs, limit, before);
      ReplayVisitsAll(k, runs, limit, before);
      var p := Attempts(k, runs, limit, before);
      if !p.finished {
        AttemptMoves(k, runs, limit, outcomes[|outcomes| - 1], p);
      } else {
        AttemptStays(k, runs, limit, outcomes[|outcomes| - 1], p);
      }
    }
  }

  lemma AttemptStays(k: Codec, runs: seq<Run>, limit: nat, outcome: string -> Outcome, p: Progress)
    requires limit >= 1 && p.finished
    ensures Attempt(k, runs, limit, outcome, p) == p
  {
  }
}
