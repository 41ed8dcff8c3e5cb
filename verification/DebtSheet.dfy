/**
 The debt sheet of the model workbook (model_workbook.py:805-829 and 1667-1736): one row per instrument and period,
 regrouped by instrument on import.
 */
module DebtSheet {
  import opened Json
  import opened SheetText
  import opened Strings

  datatype Authority = Authority(origin: string, methodName: string, sources: seq<string>, asOf: Option<int>)

  datatype Header = Header(
    name: string, priority: int, seniority: string, currency: string, rateType: Option<string>, maturity: Option<string>,
    amortization: Option<string>, curve: Option<string>, sources: seq<string>, authority: Authority)

  datatype Point = Point(key: string, numbers: seq<Option<real>>)

  datatype Instrument = Instrument(id: string, header: Header, points: seq<Point>)

  /** A number cell as read: blank, a finite number, or anything else. */
  datatype NumberCell = Blank | Num(value: real) | Bad

  /** The text, number and time cells of one row; a source list is one cell of JSON text, kept as its list. */
  datatype DebtRow = DebtRow(
    rowKey: Option<string>, id: Option<string>, name: Option<string>, priority: Option<int>, seniority: Option<string>,
    currency: Option<string>, rateType: Option<string>, maturity: Option<string>, amortization: Option<string>,
    curve: Option<string>, period: Option<string>, numbers: seq<NumberCell>, sources: seq<string>, origin: Option<string>,
    methodName: Option<string>, authoritySources: seq<string>, asOf: Option<int>, units: Option<string>)

  /**
   How period aliases are normalized, the time an undated authority defaults to, the workbook's reporting unit, whether
   the import is strict, and the ranges of a debt period.
   */
  datatype Importer = Importer(
    normalize: string -> Option<string>, defaultAsOf: Option<int>, unit: string, strict: bool, inRange: Point -> bool)

  // ---------------------------------------------------------------- export

  function Cell(s: string): Option<string> { if s == "" then None else Some(Safe(s)) }

  function CellOf(s: Option<string>): Option<string> { if s.None? then None else Cell(s.value) }

  function RowKey(id: string, key: string): string { "debt:" + id + ":" + key }

  function NumberCells(numbers: seq<Option<real>>): seq<NumberCell> {
    seq(|numbers|, k requires 0 <= k < |numbers| => match numbers[k] case None => Blank case Some(x) => Num(x))
  }

  function RowOf(unit: string, id: string, h: Header, p: Point): DebtRow {
    DebtRow(Cell(RowKey(id, p.key)), Cell(id), Cell(h.name), Some(h.priority), Cell(h.seniority), Cell(h.currency), CellOf(h.rateType),
            CellOf(h.maturity), CellOf(h.amortization), CellOf(h.curve), Cell(p.key), NumberCells(p.numbers), h.sources,
            Cell(h.authority.origin), Cell(h.authority.methodName), h.authority.sources, h.authority.asOf, Cell(unit))
  }

  function RowsOf(unit: string, id: string, h: Header, points: seq<Point>): seq<DebtRow> {
    if points == [] then [] else [RowOf(unit, id, h, points[0])] + RowsOf(unit, id, h, points[1..])
  }

  function Flatten(unit: string, xs: seq<Instrument>): seq<DebtRow> {
    if xs == [] then [] else RowsOf(unit, xs[0].id, xs[0].header, xs[0].points) + Flatten(unit, xs[1..])
  }

  /** The texts in the cells of a row; a blank cell has none. */
  function TextsOf(r: DebtRow): seq<Option<string>> {
    [r.rowKey, r.id, r.name, r.seniority, r.currency, r.rateType, r.maturity, r.amortization, r.curve, r.period, r.origin, r.methodName, r.units]
  }

  predicate Harmless(r: DebtRow) { forall k | 0 <= k < |TextsOf(r)| :: TextsOf(r)[k].Some? ==> !OpensFormula(TextsOf(r)[k].value) }

  /** A text becomes its own cell, unless it is empty or would open a formula. */
  lemma CellShows(s: string)
    ensures Cell(s) == if s == "" then None else if OpensFormula(s) then Some("'" + s) else Some(s)
    ensures Cell(s).Some? ==> !OpensFormula(Cell(s).value)
  {
    GuardWorks(s);
  }

  /** No text an export writes opens a formula in Excel, whatever the instruments are called. */
  lemma {:induction false} ExportIsHarmless(unit: string, xs: seq<Instrument>)
    ensures forall r | r in Flatten(unit, xs) :: Harmless(r)
  {
    if xs != [] {
      hide Harmless;
      RowsHarmless(unit, xs[0].id, xs[0].header, xs[0].points);
      ExportIsHarmless(unit, xs[1..]);
    }
  }

  lemma {:induction false} RowsHarmless(unit: string, id: string, h: Header, points: seq<Point>)
    ensures forall r | r in RowsOf(unit, id, h, points) :: Harmless(r)
  {
    if points != [] {
      RowHarmless(unit, id, h, points[0]);
      RowsHarmless(unit, id, h, points[1..]);
    }
  }

  lemma RowHarmless(unit: string, id: string, h: Header, p: Point)
    ensures Harmless(RowOf(unit, id, h, p))
  {
    var r := RowOf(unit, id, h, p);
    hide OpensFormula, Cell, RowKey, NumberCells;
    forall s: string ensures Cell(s).Some? ==> !OpensFormula(Cell(s).value) {
      CellShows(s);
    }
  }

  // ---------------------------------------------------------------- import of one row

  function ReadCell(c: Option<string>, limit: nat): Option<string> { if c.None? then None else Read(c.value, limit) }

  function Or(s: Option<string>, default: string): string { match s case Some(v) => v case None => default }

  /** `_json_list` on a list of texts: every item is read as a text of at most 240 characters. */
  function ReadList(items: seq<string>): Option<seq<string>> {
    if items == [] then Some([])
    else
      var head := Read(items[0], 240);
      var rest := ReadList(items[1..]);
      if head.None? || rest.None? then None else Some([head.value] + rest.value)
  }

  predicate KnownOrigin(s: string) { s == "live" || s == "imported" || s == "analyst" || s == "reference" }

  predicate KnownRateType(s: Option<string>) { s.None? || s.value == "floating" || s.value == "fixed" || s.value == "hybrid" }

  function ReadAuthority(i: Importer, r: DebtRow): Option<Authority> {
    var sources := ReadList(r.authoritySources);
    var origin := Or(ReadCell(r.origin, 24), "imported");
    if sources.None? || !KnownOrigin(origin) then None
    else Some(Authority(origin, Or(ReadCell(r.methodName, 64), "model_workbook"), sources.value, if r.asOf.Some? then r.asOf else i.defaultAsOf))
  }

  function ReadHeader(i: Importer, r: DebtRow): Option<Header> {
    var (authority, sources) := (ReadAuthority(i, r), ReadList(r.sources));
    if r.priority.None? || authority.None? || sources.None? then None
    else Some(Header(Or(ReadCell(r.name, 160), ""), r.priority.value, Or(ReadCell(r.seniority, 64), ""), Or(ReadCell(r.currency, 3), ""),
                     ReadCell(r.rateType, 16), ReadCell(r.maturity, 24), ReadCell(r.amortization, 240), ReadCell(r.curve, 120),
                     sources.value, authority.value))
  }

  datatype Parsed = Parsed(id: string, header: Header, point: Point)

  function ReadPeriod(i: Importer, r: DebtRow): Option<string> {
    var text := ReadCell(r.period, 64);
    if text.None? then None else i.normalize(text.value)
  }

  function ReadNumbers(cells: seq<NumberCell>): seq<Option<real>> {
    seq(|cells|, k requires 0 <= k < |cells| => match cells[k] case Num(x) => Some(x) case _ => None)
  }

  function BadNumbers(cells: seq<NumberCell>): nat {
    if cells == [] then 0 else (if cells[0].Bad? then 1 else 0) + BadNumbers(cells[1..])
  }

  predicate WrongUnit(i: Importer, r: DebtRow) { i.strict && ReadCell(r.units, 32) != Some(i.unit) }

  /** None when the row lacks a key, an authority or a priority, or carries a bad number or the wrong unit. */
  function ReadRow(i: Importer, r: DebtRow): Option<Parsed> {
    var (id, key, header) := (ReadCell(r.id, 96), ReadPeriod(i, r), ReadHeader(i, r));
    if id.None? || key.None? || key.value == "" || header.None? || BadNumbers(r.numbers) > 0 || WrongUnit(i, r) then None
    else Some(Parsed(id.value, header.value, Point(key.value, ReadNumbers(r.numbers))))
  }

  predicate UnknownAlias(i: Importer, r: DebtRow) { ReadCell(r.period, 64).Some? && ReadPeriod(i, r).None? }

  predicate UnstableRowKey(i: Importer, r: DebtRow) {
    var (id, key) := (ReadCell(r.id, 96), ReadPeriod(i, r));
    && i.strict && id.Some? && key.Some? && key.value != ""
    && ReadCell(r.rowKey, 300) != Some(RowKey(id.value, key.value))
  }

  function One(c: bool): nat { if c then 1 else 0 }

  /** The issues a row raises before it is grouped. */
  function RowIssues(i: Importer, r: DebtRow): nat {
    One(UnknownAlias(i, r)) + One(UnstableRowKey(i, r)) + BadNumbers(r.numbers) + One(WrongUnit(i, r)) + One(ReadRow(i, r).None?)
  }

  /** A list of texts every one of which reads back within 240 characters. */
  predicate ListReads(items: seq<string>) { forall k | 0 <= k < |items| :: Read(items[k], 240).Some? }

  lemma {:induction false} ListReadsIff(items: seq<string>)
    ensures ReadList(items).Some? <==> ListReads(items)
    ensures ListReads(items) ==> |ReadList(items).value| == |items|
    ensures ListReads(items) ==> forall k | 0 <= k < |items| :: Some(ReadList(items).value[k]) == Read(items[k], 240)
  {
    hide Read;
    if items != [] {
      ListReadsIff(items[1..]);
      assert ListReads(items) <==> Read(items[0], 240).Some? && ListReads(items[1..]) by {
        if Read(items[0], 240).Some? && ListReads(items[1..]) {
          forall k | 0 <= k < |items| ensures Read(items[k], 240).Some? {
            if k > 0 { assert items[k] == items[1..][k - 1]; }
          }
        }
        if ListReads(items) {
          forall k | 0 <= k < |items[1..]| ensures Read(items[1..][k], 240).Some? {
            assert items[1..][k] == items[k + 1];
          }
        }
      }
    }
  }

  /** The text of a cell as it is read, or what stands for a missing one. */
  predicate Reads(c: Option<string>, limit: nat, missing: string, s: string) {
    s == if c.Some? && Read(c.value, limit).Some? then Read(c.value, limit).value else missing
  }

  predicate NamesPeriod(i: Importer, alias: string) { i.normalize(alias).Some? && i.normalize(alias).value != "" }

  /** A row names its instrument and a known period, and its priority, sources, authority and numbers can be read. */
  ghost predicate Readable(i: Importer, r: DebtRow) {
    && r.id.Some? && Read(r.id.value, 96).Some?
    && r.period.Some? && Read(r.period.value, 64).Some? && NamesPeriod(i, Read(r.period.value, 64).value)
    && r.priority.Some? && ListReads(r.sources) && ListReads(r.authoritySources)
    && (exists origin :: Reads(r.origin, 24, "imported", origin) && origin in {"live", "imported", "analyst", "reference"})
    && (forall k | 0 <= k < |r.numbers| :: r.numbers[k] != Bad)
    && (i.strict ==> r.units.Some? && Read(r.units.value, 32) == Some(i.unit))
  }

  /** Bad numbers are counted one by one. */
  lemma {:induction false} BadNumbersAdd(a: seq<NumberCell>, b: seq<NumberCell>)
    ensures BadNumbers(a + b) == BadNumbers(a) + BadNumbers(b) && BadNumbers([Bad]) == 1 && BadNumbers([Blank]) == 0
  {
    if a == [] {
      assert a + b == b;
    } else {
      assert (a + b)[1..] == a[1..] + b;
      BadNumbersAdd(a[1..], b);
    }
  }

  lemma {:induction false} NoBadIff(cells: seq<NumberCell>)
    ensures BadNumbers(cells) == 0 <==> forall k | 0 <= k < |cells| :: cells[k] != Bad
  {
    if cells != [] {
      NoBadIff(cells[1..]);
      assert forall k | 1 <= k < |cells| :: cells[k] == cells[1..][k - 1];
    }
  }

  /** A row is taken in exactly when it is readable. */
  lemma RowReadableIff(i: Importer, r: DebtRow)
    ensures ReadRow(i, r).Some? <==> Readable(i, r)
  {
    ListReadsIff(r.sources);
    ListReadsIff(r.authoritySources);
    NoBadIff(r.numbers);
    HeaderReadableIff(i, r);
    KeysReadable(i, r);
    hide Read, ReadCell, ReadPeriod, WrongUnit, ReadHeader, ReadList, ListReads, BadNumbers, ReadNumbers, Reads;
  }

  lemma KeysReadable(i: Importer, r: DebtRow)
    ensures ReadCell(r.id, 96).Some? <==> r.id.Some? && Read(r.id.value, 96).Some?
    ensures ReadPeriod(i, r).Some? && ReadPeriod(i, r).value != "" <==>
              r.period.Some? && Read(r.period.value, 64).Some? && NamesPeriod(i, Read(r.period.value, 64).value)
    ensures WrongUnit(i, r) <==> i.strict && (r.units.None? || Read(r.units.value, 32) != Some(i.unit))
  {
    hide Read;
  }

  lemma HeaderReadableIff(i: Importer, r: DebtRow)
    ensures ReadHeader(i, r).Some? <==>
            && r.priority.Some? && ReadList(r.sources).Some? && ReadList(r.authoritySources).Some?
            && exists origin :: Reads(r.origin, 24, "imported", origin) && origin in {"live", "imported", "analyst", "reference"}
  {
    hide Read, ReadList;
    var origin := Or(ReadCell(r.origin, 24), "imported");
    assert Reads(r.origin, 24, "imported", origin);
  }

  /** A header holds the texts of its row within their limits, with the importer's defaults for a missing authority. */
  predicate HeaderReads(i: Importer, r: DebtRow, h: Header) {
    && Some(h.priority) == r.priority && Reads(r.name, 160, "", h.name) && Reads(r.seniority, 64, "", h.seniority)
    && Reads(r.currency, 3, "", h.currency)
    && h.rateType == ReadCell(r.rateType, 16) && h.maturity == ReadCell(r.maturity, 24) && h.amortization == ReadCell(r.amortization, 240)
    && h.curve == ReadCell(r.curve, 120) && Some(h.sources) == ReadList(r.sources) && Some(h.authority.sources) == ReadList(r.authoritySources)
    && Reads(r.origin, 24, "imported", h.authority.origin) && Reads(r.methodName, 64, "model_workbook", h.authority.methodName)
    && h.authority.asOf == (if r.asOf.None? then i.defaultAsOf else r.asOf)
  }

  lemma OrReads(c: Option<string>, limit: nat, missing: string)
    ensures Reads(c, limit, missing, Or(ReadCell(c, limit), missing))
  {
    hide Read;
  }

  lemma HeaderReadsAs(i: Importer, r: DebtRow)
    requires ReadHeader(i, r).Some?
    ensures HeaderReads(i, r, ReadHeader(i, r).value)
  {
    OrReads(r.name, 160, "");
    OrReads(r.seniority, 64, "");
    OrReads(r.currency, 3, "");
    OrReads(r.origin, 24, "imported");
    OrReads(r.methodName, 64, "model_workbook");
    hide Read, ReadCell, ReadList, KnownOrigin, Reads, Or;
  }

  /** What is taken in of a row. */
  lemma RowReadsAs(i: Importer, r: DebtRow)
    requires ReadRow(i, r).Some?
    ensures
      var Parsed(id, h, p) := ReadRow(i, r).value;
      && r.id.Some? && Read(r.id.value, 96) == Some(id) && r.period.Some? && Read(r.period.value, 64).Some?
      && i.normalize(Read(r.period.value, 64).value) == Some(p.key) && HeaderReads(i, r, h)
      && |p.numbers| == |r.numbers|
      && (forall k | 0 <= k < |r.numbers| :: r.numbers[k] == (if p.numbers[k].Some? then Num(p.numbers[k].value) else Blank))
  {
    NoBadIff(r.numbers);
    RowNumbers(r.numbers);
    HeaderReadsAs(i, r);
    hide Read, ReadHeader, HeaderReads, BadNumbers, ReadNumbers;
  }

  lemma RowNumbers(cells: seq<NumberCell>)
    requires forall k | 0 <= k < |cells| :: cells[k] != Bad
    ensures |ReadNumbers(cells)| == |cells|
    ensures forall k | 0 <= k < |cells| :: cells[k] == if ReadNumbers(cells)[k].Some? then Num(ReadNumbers(cells)[k].value) else Blank
  {
  }

  /** A row raises no issue of its own exactly when it is readable and, in a strict import, carries its stable key. */
  lemma NoIssueIff(i: Importer, r: DebtRow)
    ensures RowIssues(i, r) == 0 <==>
            && Readable(i, r)
            && (i.strict ==>
                  && r.rowKey.Some?
                  && Read(r.rowKey.value, 300) == Some("debt:" + Read(r.id.value, 96).value + ":" + i.normalize(Read(r.period.value, 64).value).value))
  {
    RowReadableIff(i, r);
    NoBadIff(r.numbers);
    hide Read, ReadHeader, ReadRow, ReadList, ListReads, BadNumbers;
  }

  // ---------------------------------------------------------------- regrouping

  predicate UniqueKeys(points: seq<Point>) { forall i, j | 0 <= i < j < |points| :: points[i].key != points[j].key }

  /** The instrument constructor accepts it. */
  predicate Accepted(x: Instrument) {
    && x.header.name != "" && x.header.seniority != "" && |x.header.currency| == 3 && 0 <= x.header.priority <= 99
    && KnownRateType(x.header.rateType) && UniqueKeys(x.points)
  }

  /** What an instrument has to be: named, ranked, in a currency of three letters, of a known rate type, each period once. */
  lemma AcceptedIff(x: Instrument)
    ensures Accepted(x) <==>
            && |x.header.name| > 0 && |x.header.seniority| > 0 && |x.header.currency| == 3 && 0 <= x.header.priority < 100
            && x.header.rateType in {None, Some("floating"), Some("fixed"), Some("hybrid")}
            && forall j, k | 0 <= j < |x.points| && 0 <= k < |x.points| && j != k :: x.points[j].key != x.points[k].key
  {
    forall j, k | 0 <= j < |x.points| && 0 <= k < |x.points| && j != k && UniqueKeys(x.points) ensures x.points[j].key != x.points[k].key {
      if j < k {
        assert x.points[j].key != x.points[k].key;
      } else {
        assert x.points[k].key != x.points[j].key;
      }
    }
  }

  datatype Grouping = Grouping(groups: seq<Instrument>, issues: nat)

  function Position(gs: seq<Instrument>, id: string): (n: nat)
    ensures n <= |gs| && (n < |gs| ==> gs[n].id == id) && forall k | 0 <= k < n :: gs[k].id != id
  {
    if gs == [] || gs[0].id == id then 0 else 1 + Position(gs[1..], id)
  }

  function AddRow(i: Importer, g: Grouping, r: DebtRow): Grouping {
    var issues := g.issues + RowIssues(i, r);
    match ReadRow(i, r)
    case None => Grouping(g.groups, issues)
    case Some(p) =>
      var n := Position(g.groups, p.id);
      if n < |g.groups| && g.groups[n].header != p.header then Grouping(g.groups, issues + 1)
      else if !i.inRange(p.point) then Grouping(g.groups, issues + 1)
      else if n == |g.groups| then Grouping(g.groups + [Instrument(p.id, p.header, [p.point])], issues)
      else Grouping(g.groups[n := g.groups[n].(points := g.groups[n].points + [p.point])], issues)
  }

  function AddRows(i: Importer, g: Grouping, rows: seq<DebtRow>): Grouping
    decreases |rows|
  {
    if rows == [] then g else AddRows(i, AddRow(i, g, rows[0]), rows[1..])
  }

  function Build(gs: seq<Instrument>): Grouping {
    if gs == [] then Grouping([], 0)
    else
      var rest := Build(gs[1..]);
      if Accepted(gs[0]) then Grouping([gs[0]] + rest.groups, rest.issues) else Grouping(rest.groups, rest.issues + 1)
  }

  function Import(i: Importer, rows: seq<DebtRow>): Grouping {
    var g := AddRows(i, Grouping([], 0), rows);
    var built := Build(g.groups);
    Grouping(built.groups, g.issues + built.issues)
  }

  // ---------------------------------------------------------------- what an instrument becomes

  predicate PlainText(s: string) { s != "" && s[0] != '\'' && forall c | c in s :: !Space(c) }

  /** What the payload validators promise: plain bounded keys, canonical unique period keys, and the field rules. */
  predicate ValidInstrument(i: Importer, x: Instrument) {
    && PlainText(x.id) && |x.id| <= 96 && Accepted(x) && KnownOrigin(x.header.authority.origin)
    && forall k | 0 <= k < |x.points| ::
         PlainText(x.points[k].key) && |x.points[k].key| <= 24 && i.normalize(x.points[k].key) == Some(x.points[k].key)
         && i.inRange(x.points[k])
  }

  /** The workbook's own unit is the one its rows were written with, a plain short word. */
  predicate ValidUnit(i: Importer) { PlainText(i.unit) && |i.unit| <= 32 }

  predicate ValidPayload(i: Importer, xs: seq<Instrument>) {
    && ValidUnit(i)
    && (forall k | 0 <= k < |xs| :: ValidInstrument(i, xs[k]))
    && (forall j, k | 0 <= j < k < |xs| :: xs[j].id != xs[k].id)
  }

  function Reread(i: Importer, h: Header): Option<Header> { ReadHeader(i, RowOf(i.unit, "", h, Point("", []))) }

  lemma RowKeyKept(id: string, key: string)
    requires PlainText(id) && |id| <= 96 && PlainText(key) && |key| <= 24
    ensures ReadCell(Cell(RowKey(id, key)), 300) == Some(RowKey(id, key))
  {
    var s := RowKey(id, key);
    assert s[0] == 'd' && |s| <= 300;
    forall c | c in s ensures !Space(c) {
      assert c in "debt:" || c in id || c in ":" || c in key;
    }
    PlainKept(s, 300);
  }

  lemma SameHeader(i: Importer, id: string, h: Header, p: Point)
    ensures ReadHeader(i, RowOf(i.unit, id, h, p)) == Reread(i, h)
  {
    hide Read, RowKey, Safe, ReadList, KnownOrigin;
  }

  lemma {:induction false} NoBadNumbers(cells: seq<NumberCell>)
    requires forall k | 0 <= k < |cells| :: !cells[k].Bad?
    ensures BadNumbers(cells) == 0
  {
    if cells != [] {
      NoBadNumbers(cells[1..]);
    }
  }

  lemma NumbersReturn(numbers: seq<Option<real>>)
    ensures ReadNumbers(NumberCells(numbers)) == numbers && BadNumbers(NumberCells(numbers)) == 0
  {
    NoBadNumbers(NumberCells(numbers));
  }

  lemma UnitReturns(i: Importer)
    requires ValidUnit(i)
    ensures ReadCell(Cell(i.unit), 32) == Some(i.unit)
  {
    PlainKept(i.unit, 32);
  }

  /** A row whose cells all read back reads as its keys and point, if its header does. */
  lemma CellsDecide(i: Importer, r: DebtRow, id: string, p: Point)
    requires ReadCell(r.id, 96) == Some(id) && ReadCell(r.period, 64) == Some(p.key) && ReadCell(r.units, 32) == Some(i.unit)
    requires ReadCell(r.rowKey, 300) == Some(RowKey(id, p.key)) && i.normalize(p.key) == Some(p.key) && p.key != ""
    requires ReadNumbers(r.numbers) == p.numbers && BadNumbers(r.numbers) == 0
    ensures
      var h := ReadHeader(i, r);
      RowIssues(i, r) == One(h.None?) && ReadRow(i, r) == if h.None? then None else Some(Parsed(id, h.value, p))
  {
    hide ReadHeader, RowKey, Read, ReadCell, BadNumbers, ReadNumbers;
  }

  /** A rendered row reads back as its keys and point, under the header its instrument's rows all read back as. */
  lemma RowReads(i: Importer, x: Instrument, k: nat)
    requires ValidUnit(i) && ValidInstrument(i, x) && k < |x.points|
    ensures
      var (p, h) := (x.points[k], Reread(i, x.header));
      var r := RowOf(i.unit, x.id, x.header, p);
      RowIssues(i, r) == One(h.None?) && ReadRow(i, r) == if h.None? then None else Some(Parsed(x.id, h.value, p))
  {
    hide ReadHeader, ReadRow, RowIssues, Reread, Accepted, RowKey, Read, ReadCell, Safe, BadNumbers, ReadNumbers, NumberCells;
    var p := x.points[k];
    KeysReturn(i, x, p);
    RowKeyKept(x.id, p.key);
    SameHeader(i, x.id, x.header, p);
    NumbersReturn(p.numbers);
    UnitReturns(i);
    CellsDecide(i, RowOf(i.unit, x.id, x.header, p), x.id, p);
  }

  lemma KeysReturn(i: Importer, x: Instrument, p: Point)
    requires PlainText(x.id) && |x.id| <= 96 && PlainText(p.key) && |p.key| <= 24
    ensures ReadCell(Cell(x.id), 96) == Some(x.id) && ReadCell(Cell(p.key), 64) == Some(p.key)
  {
    hide Read, Safe;
    PlainKept(x.id, 96);
    PlainKept(p.key, 64);
  }

  /** What an import makes of an exported instrument. */
  function Returned(i: Importer, x: Instrument): seq<Instrument> {
    var h := Reread(i, x.header);
    if x.points == [] || h.None? || !Accepted(x.(header := h.value)) then [] else [x.(header := h.value)]
  }

  function ReturnedAll(i: Importer, xs: seq<Instrument>): seq<Instrument> {
    if xs == [] then [] else Returned(i, xs[0]) + ReturnedAll(i, xs[1..])
  }

  /** The group that an instrument's first rows make. */
  function GroupOf(i: Importer, x: Instrument, n: nat): seq<Instrument>
    requires n <= |x.points|
  {
    if n == 0 || Reread(i, x.header).None? then [] else [x.(header := Reread(i, x.header).value, points := x.points[..n])]
  }

  lemma {:induction false} RowsGroup(i: Importer, g: Grouping, gs: seq<Instrument>, x: Instrument, n: nat)
    requires ValidUnit(i) && ValidInstrument(i, x) && n <= |x.points| && (forall k | 0 <= k < |gs| :: gs[k].id != x.id)
    requires g.groups == gs + GroupOf(i, x, n)
    ensures
      var out := AddRows(i, g, RowsOf(i.unit, x.id, x.header, x.points[n..]));
      out.groups == gs + GroupOf(i, x, |x.points|)
      && (out.issues == g.issues <==> n == |x.points| || Reread(i, x.header).Some?) && out.issues >= g.issues
    decreases |x.points| - n
  {
    hide ReadRow, RowIssues, Reread, RowOf, ValidInstrument;
    if n < |x.points| {
      var rows := RowsOf(i.unit, x.id, x.header, x.points[n..]);
      RowReads(i, x, n);
      assert x.points[n..][0] == x.points[n] && x.points[n..][1..] == x.points[n + 1..];
      assert rows[0] == RowOf(i.unit, x.id, x.header, x.points[n]) && rows[1..] == RowsOf(i.unit, x.id, x.header, x.points[n + 1..]);
      var g1 := AddRow(i, g, rows[0]);
      AddedRow(i, g, gs, x, n);
      RowsGroup(i, g1, gs, x, n + 1);
    } else {
      assert x.points[n..] == [];
    }
  }

  lemma AddedRow(i: Importer, g: Grouping, gs: seq<Instrument>, x: Instrument, n: nat)
    requires ValidUnit(i) && ValidInstrument(i, x) && n < |x.points| && (forall k | 0 <= k < |gs| :: gs[k].id != x.id)
    requires g.groups == gs + GroupOf(i, x, n)
    ensures
      var g1 := AddRow(i, g, RowOf(i.unit, x.id, x.header, x.points[n]));
      g1.groups == gs + GroupOf(i, x, n + 1) && g1.issues == g.issues + if Reread(i, x.header).Some? then 0 else 1
  {
    hide ReadRow, RowIssues, Reread, RowOf;
    RowReads(i, x, n);
    hide ValidInstrument;
    if Reread(i, x.header).Some? {
      assert x.points[..n + 1] == x.points[..n] + [x.points[n]];
      if n == 0 {
        assert g.groups == gs && Position(gs, x.id) == |gs|;
        assert x.points[..1] == [x.points[0]];
      } else {
        assert g.groups[|gs|].id == x.id;
        assert Position(g.groups, x.id) == |gs|;
      }
    }
  }

  /** The groups of the instruments, before the constructors check them. */
  function Grouped(i: Importer, xs: seq<Instrument>): seq<Instrument> {
    if xs == [] then [] else GroupOf(i, xs[0], |xs[0].points|) + Grouped(i, xs[1..])
  }

  predicate AllReread(i: Importer, xs: seq<Instrument>) { forall k | 0 <= k < |xs| && xs[k].points != [] :: Reread(i, xs[k].header).Some? }

  lemma {:induction false} AddRowsAppend(i: Importer, g: Grouping, a: seq<DebtRow>, b: seq<DebtRow>)
    ensures AddRows(i, g, a + b) == AddRows(i, AddRows(i, g, a), b)
    decreases |a|
  {
    hide AddRow;
    if a == [] {
      assert a + b == b;
    } else {
      assert (a + b)[1..] == a[1..] + b;
      AddRowsAppend(i, AddRow(i, g, a[0]), a[1..], b);
    }
  }

  lemma {:induction false} FlattenGroups(i: Importer, g: Grouping, xs: seq<Instrument>)
    requires ValidPayload(i, xs) && forall j, k | 0 <= j < |g.groups| && 0 <= k < |xs| :: g.groups[j].id != xs[k].id
    ensures
      var out := AddRows(i, g, Flatten(i.unit, xs));
      out.groups == g.groups + Grouped(i, xs) && out.issues >= g.issues && (out.issues == g.issues <==> AllReread(i, xs))
    decreases |xs|
  {
    hide Reread, ValidInstrument, AddRow, RowsOf;
    if xs != [] {
      var x := xs[0];
      var rows := RowsOf(i.unit, x.id, x.header, x.points);
      assert x.points[0..] == x.points;
      RowsGroup(i, g, g.groups, x, 0);
      var g1 := AddRows(i, g, rows);
      AddRowsAppend(i, g, rows, Flatten(i.unit, xs[1..]));
      assert ValidPayload(i, xs[1..]);
      FlattenGroups(i, g1, xs[1..]);
      assert AllReread(i, xs) <==> (x.points == [] || Reread(i, x.header).Some?) && AllReread(i, xs[1..]) by { AllRereadSplit(i, xs); }
      assert g.groups + GroupOf(i, x, |x.points|) + Grouped(i, xs[1..]) == g.groups + Grouped(i, xs);
    }
  }

  lemma AllRereadSplit(i: Importer, xs: seq<Instrument>)
    requires xs != []
    ensures AllReread(i, xs) <==> (xs[0].points == [] || Reread(i, xs[0].header).Some?) && AllReread(i, xs[1..])
  {
    hide Reread;
    assert forall k | 1 <= k < |xs| :: xs[k] == xs[1..][k - 1];
  }

  lemma {:induction false} BuildGrouped(i: Importer, xs: seq<Instrument>)
    ensures Build(Grouped(i, xs)).groups == ReturnedAll(i, xs)
    ensures |Build(Grouped(i, xs)).groups| + Build(Grouped(i, xs)).issues == |Grouped(i, xs)|
    decreases |xs|
  {
    hide Reread, Accepted;
    if xs != [] {
      BuildGrouped(i, xs[1..]);
      var x := xs[0];
      var g := GroupOf(i, x, |x.points|);
      assert x.points[..|x.points|] == x.points;
      if g != [] {
        assert (g + Grouped(i, xs[1..]))[1..] == Grouped(i, xs[1..]);
      } else {
        assert g + Grouped(i, xs[1..]) == Grouped(i, xs[1..]);
      }
    }
  }

  /** Importing an exported sheet returns every instrument with a period whose header reads back acceptably, in order. */
  lemma ImportOfExport(i: Importer, xs: seq<Instrument>)
    requires ValidPayload(i, xs)
    ensures Import(i, Flatten(i.unit, xs)).groups == ReturnedAll(i, xs)
  {
    hide AddRows, Flatten, Grouped, ReturnedAll;
    FlattenGroups(i, Grouping([], 0), xs);
    BuildGrouped(i, xs);
    assert [] + Grouped(i, xs) == Grouped(i, xs);
  }

  // ---------------------------------------------------------------- the exact round trip

  predicate OptionKept(s: Option<string>, limit: nat) { s.None? || Kept(s.value, limit) }

  predicate ItemKept(s: string) { Read(s, 240) == Some(s) }

  predicate AuthorityKept(i: Importer, a: Authority) {
    && Kept(a.methodName, 64) && (forall k | 0 <= k < |a.sources| :: ItemKept(a.sources[k])) && (a.asOf.Some? || i.defaultAsOf.None?)
  }

  predicate HeaderKept(i: Importer, h: Header) {
    && Kept(h.name, 160) && Kept(h.seniority, 64) && Kept(h.currency, 3) && OptionKept(h.rateType, 16) && OptionKept(h.maturity, 24)
    && OptionKept(h.amortization, 240) && OptionKept(h.curve, 120) && (forall k | 0 <= k < |h.sources| :: ItemKept(h.sources[k]))
    && AuthorityKept(i, h.authority)
  }

  lemma {:induction false} ListKept(items: seq<string>)
    ensures ReadList(items) == Some(items) <==> forall k | 0 <= k < |items| :: ItemKept(items[k])
  {
    hide Read;
    if items != [] {
      ListKept(items[1..]);
      assert items == [items[0]] + items[1..];
      assert forall k | 1 <= k < |items| :: items[k] == items[1..][k - 1];
      if ReadList(items) == Some(items) {
        assert ([Read(items[0], 240).value] + ReadList(items[1..]).value)[1..] == ReadList(items[1..]).value;
      }
    }
  }

  lemma CellKept(s: string, limit: nat)
    ensures ReadCell(Cell(s), limit) == Some(s) <==> Kept(s, limit)
  {
    KeptIff(s, limit);
  }

  lemma OptionCellKept(s: Option<string>, limit: nat)
    ensures ReadCell(CellOf(s), limit) == s <==> OptionKept(s, limit)
  {
    if s.Some? { CellKept(s.value, limit); }
  }

  lemma OriginKept(s: string)
    requires KnownOrigin(s)
    ensures ReadCell(Cell(s), 24) == Some(s)
  {
    PlainKept(s, 24);
  }

  lemma DefaultMethodKept()
    ensures Kept("model_workbook", 64)
  {
    PlainKept("model_workbook", 64);
  }

  lemma AuthorityReturns(i: Importer, h: Header)
    requires KnownOrigin(h.authority.origin)
    ensures ReadAuthority(i, RowOf(i.unit, "", h, Point("", []))) == Some(h.authority) <==> AuthorityKept(i, h.authority)
  {
    hide Read, Kept, KnownOrigin, RowKey, ItemKept, ReadList, ReadCell, Cell, CellOf;
    OriginKept(h.authority.origin);
    ListKept(h.authority.sources);
    CellKept(h.authority.methodName, 64);
    DefaultMethodKept();
  }

  lemma RequiredTextKept(s: string, limit: nat)
    requires s != ""
    ensures Or(ReadCell(Cell(s), limit), "") == s <==> Kept(s, limit)
  {
    CellKept(s, limit);
    hide ReadCell, Cell;
  }

  lemma HeaderReturns(i: Importer, h: Header)
    requires KnownOrigin(h.authority.origin) && h.name != "" && h.seniority != "" && |h.currency| == 3
    ensures Reread(i, h) == Some(h) <==> HeaderKept(i, h)
  {
    hide Read, Kept, RowKey, ItemKept, ReadAuthority, AuthorityKept, ReadCell, Cell, CellOf, OptionKept, Or, ReadList, KnownOrigin;
    AuthorityReturns(i, h);
    ListKept(h.sources);
    RequiredTextKept(h.name, 160);
    RequiredTextKept(h.seniority, 64);
    RequiredTextKept(h.currency, 3);
    OptionCellKept(h.rateType, 16);
    OptionCellKept(h.maturity, 24);
    OptionCellKept(h.amortization, 240);
    OptionCellKept(h.curve, 120);
  }

  lemma {:induction false} ReturnedOrder(i: Importer, xs: seq<Instrument>)
    requires ValidPayload(i, xs)
    ensures |ReturnedAll(i, xs)| <= |xs|
    ensures ReturnedAll(i, xs) == xs <==> forall k | 0 <= k < |xs| :: Returned(i, xs[k]) == [xs[k]]
  {
    hide Returned, ValidInstrument;
    if xs != [] {
      ReturnedOrder(i, xs[1..]);
      AtMostOne(i, xs[0]);
      assert xs == [xs[0]] + xs[1..];
      assert forall k | 1 <= k < |xs| :: xs[k] == xs[1..][k - 1];
      if ReturnedAll(i, xs) == xs {
        assert |Returned(i, xs[0])| == 1;
        assert ReturnedAll(i, xs)[1..] == ReturnedAll(i, xs[1..]);
      }
    }
  }

  lemma AtMostOne(i: Importer, x: Instrument)
    ensures |Returned(i, x)| <= 1
  {
  }

  /**
   The debt sheet round trip, exactly: an import returns the exported instruments, with their periods and in order, if
   and only if every instrument has a period and every text of its header is one that a cell keeps, and undated
   authorities do not pick up a default date.
   */
  lemma RoundTripIff(i: Importer, xs: seq<Instrument>)
    requires ValidPayload(i, xs)
    ensures Import(i, Flatten(i.unit, xs)).groups == xs <==> forall k | 0 <= k < |xs| :: xs[k].points != [] && HeaderKept(i, xs[k].header)
  {
    hide Import, Flatten, Reread, HeaderKept, ReturnedAll;
    ImportOfExport(i, xs);
    ReturnedOrder(i, xs);
    forall k | 0 <= k < |xs| ensures Returned(i, xs[k]) == [xs[k]] <==> xs[k].points != [] && HeaderKept(i, xs[k].header) {
      HeaderReturns(i, xs[k].header);
    }
  }

  /** And then nothing blocks the import. */
  lemma RoundTripUnblocked(i: Importer, xs: seq<Instrument>)
    requires ValidPayload(i, xs) && forall k | 0 <= k < |xs| :: xs[k].points != [] && HeaderKept(i, xs[k].header)
    ensures Import(i, Flatten(i.unit, xs)) == Grouping(xs, 0)
  {
    hide Flatten, Reread, HeaderKept, ReturnedAll, AddRows, Build, Grouped;
    RoundTripIff(i, xs);
    forall k | 0 <= k < |xs| ensures Reread(i, xs[k].header).Some? {
      HeaderReturns(i, xs[k].header);
    }
    FlattenGroups(i, Grouping([], 0), xs);
    BuildGrouped(i, xs);
    assert [] + Grouped(i, xs) == Grouped(i, xs);
    GroupedCount(i, xs);
  }

  lemma {:induction false} GroupedCount(i: Importer, xs: seq<Instrument>)
    ensures |Grouped(i, xs)| <= |xs|
  {
    if xs != [] {
      GroupedCount(i, xs[1..]);
    }
  }

  // ---------------------------------------------------------------- the loops

  lemma {:induction false} FlattenMore(unit: string, xs: seq<Instrument>, x: Instrument)
    ensures Flatten(unit, xs + [x]) == Flatten(unit, xs) + RowsOf(unit, x.id, x.header, x.points)
  {
    hide RowsOf;
    if xs == [] {
      assert ([x] + [])[1..] == [] && Flatten(unit, []) == [];
    } else {
      assert (xs + [x])[1..] == xs[1..] + [x];
      FlattenMore(unit, xs[1..], x);
    }
  }

  lemma {:induction false} RowsMore(unit: string, id: string, h: Header, points: seq<Point>, p: Point)
    ensures RowsOf(unit, id, h, points + [p]) == RowsOf(unit, id, h, points) + [RowOf(unit, id, h, p)]
  {
    hide RowOf;
    if points != [] {
      assert (points + [p])[1..] == points[1..] + [p];
      RowsMore(unit, id, h, points[1..], p);
    }
  }

  /** The debt sheet of `render_model_workbook`. */
  method Render(unit: string, xs: seq<Instrument>) returns (rows: seq<DebtRow>)
    ensures rows == Flatten(unit, xs)
  {
    hide RowOf;
    rows := [];
    var k := 0;
    while k < |xs|
      invariant 0 <= k <= |xs| && rows == Flatten(unit, xs[..k])
    {
      var x := xs[k];
      ghost var before := rows;
      var n := 0;
      while n < |x.points|
        invariant 0 <= n <= |x.points| && rows == before + RowsOf(unit, x.id, x.header, x.points[..n])
      {
        assert x.points[..n + 1] == x.points[..n] + [x.points[n]];
        RowsMore(unit, x.id, x.header, x.points[..n], x.points[n]);
        rows := rows + [RowOf(unit, x.id, x.header, x.points[n])];
        n := n + 1;
      }
      assert x.points[..n] == x.points && xs[..k + 1] == xs[..k] + [x];
      FlattenMore(unit, xs[..k], x);
      k := k + 1;
    }
    assert xs[..k] == xs;
  }

  /** A dictionary in insertion order holds these groups. */
  ghost predicate Holds(order: seq<string>, grouped: map<string, Instrument>, gs: seq<Instrument>) {
    && |order| == |gs| && (forall k | 0 <= k < |gs| :: gs[k].id == order[k] && order[k] in grouped && grouped[order[k]] == gs[k])
    && (forall j, k | 0 <= j < k < |gs| :: order[j] != order[k])
    && (forall id | id in grouped :: id in order)
  }

  lemma HoldsPosition(order: seq<string>, grouped: map<string, Instrument>, gs: seq<Instrument>, id: string)
    requires Holds(order, grouped, gs)
    ensures var n := Position(gs, id); (id in grouped <==> n < |gs|) && (n < |gs| ==> order[n] == id && grouped[id] == gs[n])
  {
    if id in grouped {
      var k :| 0 <= k < |order| && order[k] == id;
      assert gs[k].id == id;
    }
  }

  lemma {:induction false} AddRowsMore(i: Importer, g: Grouping, rows: seq<DebtRow>, r: DebtRow)
    ensures AddRows(i, g, rows + [r]) == AddRow(i, AddRows(i, g, rows), r)
  {
    AddRowsAppend(i, g, rows, [r]);
    hide AddRow;
    var g1 := AddRows(i, g, rows);
    assert AddRows(i, g1, [r]) == AddRows(i, AddRow(i, g1, r), [r][1..]);
  }

  lemma {:induction false} BuildMore(gs: seq<Instrument>, x: Instrument)
    ensures
      var (b, c) := (Build(gs), Build(gs + [x]));
      if Accepted(x) then c == Grouping(b.groups + [x], b.issues) else c == Grouping(b.groups, b.issues + 1)
  {
    hide Accepted;
    if gs == [] {
      assert ([] + [x])[1..] == [];
    } else {
      assert (gs + [x])[1..] == gs[1..] + [x];
      BuildMore(gs[1..], x);
    }
  }

  lemma HoldsNew(order: seq<string>, grouped: map<string, Instrument>, gs: seq<Instrument>, x: Instrument)
    requires Holds(order, grouped, gs) && x.id !in grouped
    ensures Holds(order + [x.id], grouped[x.id := x], gs + [x])
  {
    forall id | id in grouped[x.id := x] ensures id in order + [x.id] {
      assert id == x.id || id in order;
    }
    assert (order + [x.id])[|order|] == x.id;
  }

  lemma HoldsMore(order: seq<string>, grouped: map<string, Instrument>, gs: seq<Instrument>, n: nat, x: Instrument)
    requires Holds(order, grouped, gs) && n < |gs| && gs[n].id == x.id
    ensures Holds(order, grouped[x.id := x], gs[n := x])
  {
  }

  /** The regrouping loop of `_build_payload`: a dictionary from instrument to its metadata and periods. */
  method Regroup(i: Importer, rows: seq<DebtRow>) returns (order: seq<string>, grouped: map<string, Instrument>, issues: nat)
    ensures Holds(order, grouped, AddRows(i, Grouping([], 0), rows).groups)
    ensures issues == AddRows(i, Grouping([], 0), rows).issues
  {
    hide ReadRow, RowIssues;
    order, grouped, issues := [], map[], 0;
    var k := 0;
    while k < |rows|
      invariant 0 <= k <= |rows|
      invariant Holds(order, grouped, AddRows(i, Grouping([], 0), rows[..k]).groups)
      invariant issues == AddRows(i, Grouping([], 0), rows[..k]).issues
    {
      hide AddRows, Holds, Position;
      ghost var g := AddRows(i, Grouping([], 0), rows[..k]);
      assert rows[..k + 1] == rows[..k] + [rows[k]];
      AddRowsMore(i, Grouping([], 0), rows[..k], rows[k]);
      issues := issues + RowIssues(i, rows[k]);
      var row := ReadRow(i, rows[k]);
      if row.Some? {
        var p := row.value;
        HoldsPosition(order, grouped, g.groups, p.id);
        if p.id in grouped && grouped[p.id].header != p.header {
          issues := issues + 1;
        } else if !i.inRange(p.point) {
          issues := issues + 1;
        } else if p.id !in grouped {
          HoldsNew(order, grouped, g.groups, Instrument(p.id, p.header, [p.point]));
          order, grouped := order + [p.id], grouped[p.id := Instrument(p.id, p.header, [p.point])];
        } else {
          ghost var n := Position(g.groups, p.id);
          HoldsMore(order, grouped, g.groups, n, g.groups[n].(points := g.groups[n].points + [p.point]));
          grouped := grouped[p.id := grouped[p.id].(points := grouped[p.id].points + [p.point])];
        }
      }
      k := k + 1;
    }
    assert rows[..k] == rows;
  }

  /** Regrouping, then the instrument constructors. */
  method ImportDebt(i: Importer, rows: seq<DebtRow>) returns (out: Grouping)
    ensures out == Import(i, rows)
  {
    hide AddRows, Accepted;
    var order, grouped, issues := Regroup(i, rows);
    ghost var gs := AddRows(i, Grouping([], 0), rows).groups;
    out := Grouping([], issues);
    var k := 0;
    while k < |order|
      invariant 0 <= k <= |order|
      invariant out == Grouping(Build(gs[..k]).groups, issues + Build(gs[..k]).issues)
    {
      hide Build;
      assert gs[..k + 1] == gs[..k] + [gs[k]];
      BuildMore(gs[..k], gs[k]);
      var x := grouped[order[k]];
      out := if Accepted(x) then Grouping(out.groups + [x], out.issues) else Grouping(out.groups, out.issues + 1);
      k := k + 1;
    }
    assert gs[..k] == gs;
  }
}
