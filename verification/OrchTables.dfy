/** Tab-separated files of the orchestration store (orch/store.ts: readTsv, writeTsv)
    and the units and ledger operations that parse, edit and reprint them. */
module OrchTables {
  import opened Common
  import opened OrchText

  type Row = seq<string>

  // ---------------------------------------------------------- print and parse

  function CleanRow(row: Row): (r: Row)
    ensures |r| == |row| && forall i :: 0 <= i < |row| ==> r[i] == CleanCell(row[i])
  {
    seq(|row|, i requires 0 <= i < |row| => CleanCell(row[i]))
  }

  function CleanRows(rows: seq<Row>): (r: seq<Row>)
    ensures |r| == |rows| && forall i :: 0 <= i < |rows| ==> r[i] == CleanRow(rows[i])
  {
    seq(|rows|, i requires 0 <= i < |rows| => CleanRow(rows[i]))
  }

  function Line(row: Row): string {
    Join(CleanRow(row), "\t")
  }

  function Lines(rows: seq<Row>): (r: seq<string>)
    ensures |r| == |rows| && forall i :: 0 <= i < |rows| ==> r[i] == Line(rows[i])
  {
    seq(|rows|, i requires 0 <= i < |rows| => Line(rows[i]))
  }

  /** writeTsv */
  function PrintTable(header: string, rows: seq<Row>): string {
    var body := Join(Lines(rows), "\n");
    header + "\n" + body + (if body != "" then "\n" else "")
  }

  function ParseRows(lines: seq<string>, width: nat): Result<seq<Row>, StoreError> {
    if lines == [] then Ok([])
    else
      var cells, rest := Split(lines[0], '\t'), ParseRows(lines[1..], width);
      if |cells| != width then Err(BadRow)
      else if rest.Err? then rest
      else Ok([cells] + rest.value)
  }

  /** readTsv */
  function ParseTable(text: string, header: string, width: nat): Result<seq<Row>, StoreError> {
    var lines := Split(DropReturns(text), '\n');
    if lines[0] != header then Err(BadHeader) else ParseRows(NonEmptyLines(lines[1..]), width)
  }

  ghost predicate HasWidth(rows: seq<Row>, width: nat) {
    forall i :: 0 <= i < |rows| ==> |rows[i]| == width
  }

  lemma LineFacts(row: Row)
    requires |row| >= 2
    ensures Line(row) != "" && '\n' !in Line(row) && '\r' !in Line(row)
    ensures Split(Line(row), '\t') == CleanRow(row)
  {
    var cells := CleanRow(row);
    forall p | p in cells ensures '\t' !in p && '\n' !in p && '\r' !in p {
      var i :| 0 <= i < |cells| && cells[i] == p;
      CleanCellIsClean(row[i]);
    }
    JoinChars(cells, "\t", '\n');
    JoinChars(cells, "\t", '\r');
    SplitJoin(cells, '\t');
  }

  lemma {:induction false} ParsePrintedRows(rows: seq<Row>, width: nat)
    requires width >= 2 && HasWidth(rows, width)
    ensures ParseRows(Lines(rows), width) == Ok(CleanRows(rows))
  {
    if rows != [] {
      LineFacts(rows[0]);
      hide Line, CleanRow, Split;
      ParsePrintedRows(rows[1..], width);
      assert Lines(rows)[1..] == Lines(rows[1..]);
      assert CleanRows(rows) == [CleanRow(rows[0])] + CleanRows(rows[1..]);
    }
  }

  lemma {:induction false} JoinIsEmpty(lines: seq<string>)
    requires lines != [] && lines[0] != ""
    ensures Join(lines, "\n") != ""
  {
  }

  /** A printed table is its header, its lines and a final break. */
  lemma PrintedAsLines(header: string, rows: seq<Row>, width: nat)
    requires width >= 2 && HasWidth(rows, width)
    ensures PrintTable(header, rows) == Join([header] + Lines(rows) + [""], "\n")
  {
    var lines := Lines(rows);
    if rows == [] {
      assert [header] + lines + [""] == [header, ""];
      assert Join([""], "\n") == "";
    } else {
      LineFacts(rows[0]);
      JoinIsEmpty(lines);
      JoinFinalBreak(lines);
      assert ([header] + lines + [""])[1..] == lines + [""];
    }
  }

  lemma LinesAreClean(rows: seq<Row>, width: nat)
    requires width >= 2 && HasWidth(rows, width)
    ensures forall i :: 0 <= i < |rows| ==> Lines(rows)[i] != "" && '\n' !in Lines(rows)[i] && '\r' !in Lines(rows)[i]
  {
    forall i | 0 <= i < |rows| ensures Lines(rows)[i] != "" && '\n' !in Lines(rows)[i] && '\r' !in Lines(rows)[i] {
      LineFacts(rows[i]);
    }
  }

  /** A text of whole lines splits into those lines. */
  lemma TextSplits(all: seq<string>)
    requires all != [] && forall i :: 0 <= i < |all| ==> '\n' !in all[i] && '\r' !in all[i]
    ensures Split(DropReturns(Join(all, "\n")), '\n') == all
  {
    JoinChars(all, "\n", '\r');
    DropReturnsKeeps(Join(all, "\n"));
    SplitJoin(all, '\n');
  }

  /** Main result: reading back a written table returns its cleaned rows. */
  lemma TableRoundTrip(header: string, rows: seq<Row>, width: nat)
    requires width >= 2 && HasWidth(rows, width) && '\n' !in header && '\r' !in header
    ensures ParseTable(PrintTable(header, rows), header, width) == Ok(CleanRows(rows))
  {
    hide Split, Join, DropReturns, NonEmptyLines, ParseRows, Line;
    var lines := Lines(rows);
    var all := [header] + lines + [""];
    PrintedAsLines(header, rows, width);
    LinesAreClean(rows, width);
    TextSplits(all);
    assert all[1..] == lines + [""];
    FinalBreakIsDropped(lines);
    ParsePrintedRows(rows, width);
  }

  ghost predicate CleanTable(rows: seq<Row>, width: nat) {
    HasWidth(rows, width) && forall i, j :: 0 <= i < |rows| && 0 <= j < width ==> IsClean(rows[i][j])
  }

  /** Clean rows come back unchanged. */
  lemma CleanTableRoundTrip(header: string, rows: seq<Row>, width: nat)
    requires width >= 2 && CleanTable(rows, width) && '\n' !in header && '\r' !in header
    ensures ParseTable(PrintTable(header, rows), header, width) == Ok(rows)
  {
    TableRoundTrip(header, rows, width);
    forall i | 0 <= i < |rows| ensures CleanRow(rows[i]) == rows[i] {
      forall j | 0 <= j < width ensures CleanCell(rows[i][j]) == rows[i][j] {
        CleanCellKeeps(rows[i][j]);
      }
    }
    assert CleanRows(rows) == rows;
  }

  // -------------------------------------------------------------------- units

  datatype Unit = Unit(id: string, track: string, state: string, branch: string, pr: string, sha: string, brief: string)

  const UNIT_HEADER: string := "id\ttrack\tstate\tbranch\tpr\tsha\tbrief"

  /** unitCells */
  function UnitCells(u: Unit): Row {
    [u.id, u.track, u.state, u.branch, u.pr, u.sha, u.brief]
  }

  function UnitOf(row: Row): Unit
    requires |row| == 7
  {
    Unit(row[0], row[1], row[2], row[3], row[4], row[5], row[6])
  }

  function AllUnitCells(units: seq<Unit>): (r: seq<Row>)
    ensures |r| == |units| && forall i :: 0 <= i < |units| ==> r[i] == UnitCells(units[i])
  {
    seq(|units|, i requires 0 <= i < |units| => UnitCells(units[i]))
  }

  /** readUnits */
  function ReadUnits(text: string): Result<seq<Unit>, StoreError> {
    var rows := ParseTable(text, UNIT_HEADER, 7);
    if rows.Err? then Err(rows.error)
    else
      ParsedWidth(text, UNIT_HEADER, 7);
      Ok(seq(|rows.value|, i requires 0 <= i < |rows.value| => UnitOf(rows.value[i])))
  }

  lemma ParsedWidth(text: string, header: string, width: nat)
    ensures var r := ParseTable(text, header, width); r.Ok? ==> HasWidth(r.value, width)
  {
    ParsedRowsWidth(NonEmptyLines(Split(DropReturns(text), '\n')[1..]), width);
  }

  lemma {:induction false} ParsedRowsWidth(lines: seq<string>, width: nat)
    ensures var r := ParseRows(lines, width); r.Ok? ==> HasWidth(r.value, width)
  {
    if lines != [] {
      ParsedRowsWidth(lines[1..], width);
    }
  }

  /** saveUnits */
  function PrintUnits(units: seq<Unit>): string {
    PrintTable(UNIT_HEADER, AllUnitCells(units))
  }

  predicate CleanUnit(u: Unit) {
    IsClean(u.id) && IsClean(u.track) && IsClean(u.state) && IsClean(u.branch) && IsClean(u.pr) && IsClean(u.sha)
      && IsClean(u.brief)
  }

  ghost predicate UnitsOk(units: seq<Unit>) {
    && (forall i :: 0 <= i < |units| ==> CleanUnit(units[i]))
    && (forall i, j :: 0 <= i < j < |units| ==> units[i].id != units[j].id)
  }

  /** Saving and reading units are inverse on clean units. */
  lemma UnitsRoundTrip(units: seq<Unit>)
    requires forall i :: 0 <= i < |units| ==> CleanUnit(units[i])
    ensures ReadUnits(PrintUnits(units)) == Ok(units)
  {
    hide PrintTable, ParseTable, IsClean;
    var rows := AllUnitCells(units);
    forall i, j | 0 <= i < |rows| && 0 <= j < 7 ensures IsClean(rows[i][j]) {
      assert CleanUnit(units[i]);
    }
    CleanTableRoundTrip(UNIT_HEADER, rows, 7);
    var read := ReadUnits(PrintUnits(units)).value;
    forall i | 0 <= i < |units| ensures read[i] == units[i] {
      assert UnitOf(rows[i]) == units[i];
    }
    assert read == units;
  }

  lemma {:induction false} DecimalIsClean(n: nat)
    ensures IsClean(Decimal(n))
  {
    DecimalRoundTrip(n);
    assert Decimal(n)[0] in Decimal(n);
  }

  /** Exactly the i-th row was replaced. */
  ghost predicate RowChanged(before: seq<Unit>, after: seq<Unit>, i: int, row: Unit) {
    0 <= i < |before| && after == before[i := row]
  }

  /** The unit that `set` makes of an old one: fields that are not given stay. */
  ghost function Edited(u: Unit, state: string, branch: Option<string>, pr: Option<int>, sha: Option<string>): Unit {
    u.(state := CleanCell(state),
       branch := if branch.Some? then CleanCell(branch.value) else u.branch,
       pr := if pr.Some? && pr.value > 0 then Decimal(pr.value) else u.pr,
       sha := if sha.Some? then CleanCell(sha.value) else u.sha)
  }

  class UnitsFile {
    var text: string

    /** The rows of the file. */
    ghost function Units(): seq<Unit>
      reads this
    {
      var r := ReadUnits(text);
      if r.Ok? then r.value else []
    }

    ghost predicate Valid()
      reads this
    {
      ReadUnits(text).Ok? && UnitsOk(Units())
    }

    /** init: a file that holds only the header. */
    constructor ()
      ensures Valid() && Units() == []
    {
      text := PrintUnits([]);
      new;
      UnitsRoundTrip([]);
    }

    method Save(units: seq<Unit>)
      requires UnitsOk(units)
      modifies this
      ensures Valid() && Units() == units
    {
      UnitsRoundTrip(units);
      text := PrintUnits(units);
    }

    method FindUnit(units: seq<Unit>, id: string) returns (i: nat)
      ensures i <= |units| && (i < |units| ==> units[i].id == id)
      ensures i == |units| ==> forall j :: 0 <= j < |units| ==> units[j].id != id
    {
      i := 0;
      while i < |units| && units[i].id != id
        invariant i <= |units| && forall j :: 0 <= j < i ==> units[j].id != id
      {
        i := i + 1;
      }
    }

    /** units.add: a new row at the end, unless a field is blank or the id is taken. */
    method Add(id: string, track: string, brief: Option<string>) returns (r: Result<Unit, StoreError>)
      requires Valid()
      modifies this
      ensures Valid()
      ensures r.Ok? <==>
        && RequiredCell(id).Ok? && RequiredCell(track).Ok? && (brief.Some? ==> RequiredCell(brief.value).Ok?)
        && forall j :: 0 <= j < |old(Units())| ==> old(Units())[j].id != CleanCell(id)
      ensures r.Ok? ==>
        && Units() == old(Units()) + [r.value]
        && r.value == Unit(CleanCell(id), CleanCell(track), "pending", "", "", "",
                           if brief.Some? then CleanCell(brief.value) else "")
      ensures r.Err? ==> text == old(text)
      ensures r.Err? ==>
        r.error == if RequiredCell(id).Err? || RequiredCell(track).Err?
                      || (brief.Some? && RequiredCell(brief.value).Err?) then EmptyField else AlreadyExists
    {
      hide ReadUnits, RequiredCell, CleanCell, IsClean;
      RequiredMeansClean(id);
      RequiredMeansClean(track);
      var cleanId, cleanTrack := RequiredCell(id), RequiredCell(track);
      var cleanBrief: Result<string, StoreError> := Ok("");
      if brief.Some? {
        RequiredMeansClean(brief.value);
        cleanBrief := RequiredCell(brief.value);
      }
      if cleanId.Err? || cleanTrack.Err? || cleanBrief.Err? {
        return Err(EmptyField);
      }
      var units := ReadUnits(text).value;
      var i := FindUnit(units, cleanId.value);
      if i < |units| {
        return Err(AlreadyExists);
      }
      var row := Unit(cleanId.value, cleanTrack.value, "pending", "", "", "", cleanBrief.value);
      PlainCells();
      Save(units + [row]);
      r := Ok(row);
    }

    /** units.set: the row of that id changes its state and the given fields; every
        other row, and every field not given, stays. */
    method Set(id: string, state: string, branch: Option<string>, pr: Option<int>, sha: Option<string>)
        returns (r: Result<Unit, StoreError>)
      requires Valid()
      modifies this
      ensures Valid()
      ensures r.Ok? ==>
        exists i :: (
          && RowChanged(old(Units()), Units(), i, r.value)
          && old(Units())[i].id == CleanCell(id) && r.value == Edited(old(Units())[i], state, branch, pr, sha))
      ensures r.Ok? <==>
        && RequiredCell(id).Ok? && RequiredCell(state).Ok? && (branch.Some? ==> RequiredCell(branch.value).Ok?)
        && (pr.Some? ==> pr.value > 0) && (sha.Some? ==> RequiredCell(sha.value).Ok?)
        && exists j :: 0 <= j < |old(Units())| && old(Units())[j].id == CleanCell(id)
      ensures r.Err? ==> text == old(text)
      ensures r.Err? ==>
        r.error == if RequiredCell(id).Err? || RequiredCell(state).Err? then EmptyField
                   else if forall j :: 0 <= j < |old(Units())| ==> old(Units())[j].id != CleanCell(id) then NotFound
                   else if branch.Some? && RequiredCell(branch.value).Err? then EmptyField
                   else if pr.Some? && pr.value < 1 then NotPositive
                   else EmptyField
    {
      hide ReadUnits, RequiredCell, CleanCell, IsClean, Decimal;
      RequiredMeansClean(id);
      RequiredMeansClean(state);
      var cleanId, cleanState := RequiredCell(id), RequiredCell(state);
      if cleanId.Err? || cleanState.Err? {
        return Err(EmptyField);
      }
      var units := ReadUnits(text).value;
      var i := FindUnit(units, cleanId.value);
      if i == |units| {
        return Err(NotFound);
      }
      var row := units[i].(state := cleanState.value);
      if branch.Some? {
        RequiredMeansClean(branch.value);
        if RequiredCell(branch.value).Err? {
          return Err(EmptyField);
        }
        row := row.(branch := RequiredCell(branch.value).value);
      }
      if pr.Some? {
        if pr.value < 1 {
          return Err(NotPositive);
        }
        DecimalIsClean(pr.value);
        row := row.(pr := Decimal(pr.value));
      }
      if sha.Some? {
        RequiredMeansClean(sha.value);
        if RequiredCell(sha.value).Err? {
          return Err(EmptyField);
        }
        row := row.(sha := RequiredCell(sha.value).value);
      }
      Save(units[i := row]);
      r := Ok(row);
    }

    /** units.get */
    method Get(id: string) returns (r: Result<Unit, StoreError>)
      requires Valid()
      ensures r.Ok? ==> r.value in Units() && r.value.id == CleanCell(id)
      ensures RequiredCell(id).Err? ==> r == Err(EmptyField)
      ensures RequiredCell(id).Ok? && r.Err? ==>
        r == Err(NotFound) && forall j :: 0 <= j < |Units()| ==> Units()[j].id != CleanCell(id)
    {
      hide ReadUnits, IsClean;
      var cleanId := RequiredCell(id);
      if cleanId.Err? {
        return Err(EmptyField);
      }
      var units := ReadUnits(text).value;
      var i := FindUnit(units, cleanId.value);
      if i == |units| {
        return Err(NotFound);
      }
      r := Ok(units[i]);
    }
  }

  lemma RequiredMeansClean(value: string)
    ensures RequiredCell(value).Ok? ==> RequiredCell(value).value == CleanCell(value) && IsClean(CleanCell(value))
    ensures RequiredCell(value).Err? ==> RequiredCell(value).error == EmptyField
  {
    CleanCellIsClean(value);
  }

  lemma PlainCells()
    ensures IsClean("pending") && IsClean("")
  {
  }

  // ------------------------------------------------------------------- ledger

  datatype Verdict = LiveUiVerified | UnitTestVerified | TypeCheckOnly | VerifierBlocked | VerifierFailed

  function VerdictText(v: Verdict): string {
    match v
    case LiveUiVerified => "live-ui-verified"
    case UnitTestVerified => "unit-test-verified"
    case TypeCheckOnly => "type-check-only"
    case VerifierBlocked => "verifier-blocked"
    case VerifierFailed => "verifier-failed"
  }

  /** verdictOrNull */
  function ParseVerdict(s: string): Option<Verdict> {
    if s == "live-ui-verified" then Some(LiveUiVerified)
    else if s == "unit-test-verified" then Some(UnitTestVerified)
    else if s == "type-check-only" then Some(TypeCheckOnly)
    else if s == "verifier-blocked" then Some(VerifierBlocked)
    else if s == "verifier-failed" then Some(VerifierFailed)
    else None
  }

  lemma VerdictRoundTrip(v: Verdict)
    ensures ParseVerdict(VerdictText(v)) == Some(v)
  {
  }

  lemma VerdictIsClean(v: Verdict)
    ensures IsClean(VerdictText(v))
  {
  }

  datatype Entry = Entry(pr: string, sha: string, verdict: Verdict, evidence: string, verifier: string, ts: string)

  const LEDGER_HEADER: string := "pr\tsha\tverdict\tevidence\tverifier\tts"

  /** ledgerCells */
  function EntryCells(e: Entry): Row {
    [e.pr, e.sha, VerdictText(e.verdict), e.evidence, e.verifier, e.ts]
  }

  function AllEntryCells(entries: seq<Entry>): (r: seq<Row>)
    ensures |r| == |entries| && forall i :: 0 <= i < |entries| ==> r[i] == EntryCells(entries[i])
  {
    seq(|entries|, i requires 0 <= i < |entries| => EntryCells(entries[i]))
  }

  function EntriesOf(rows: seq<Row>): Result<seq<Entry>, StoreError>
    requires HasWidth(rows, 6)
  {
    if rows == [] then Ok([])
    else
      var row, rest := rows[0], EntriesOf(rows[1..]);
      var verdict := ParseVerdict(row[2]);
      if verdict.None? then Err(BadVerdict)
      else if rest.Err? then rest
      else Ok([Entry(row[0], row[1], verdict.value, row[3], row[4], row[5])] + rest.value)
  }

  /** readLedger */
  function ReadLedger(text: string): Result<seq<Entry>, StoreError> {
    var rows := ParseTable(text, LEDGER_HEADER, 6);
    if rows.Err? then Err(rows.error)
    else
      ParsedWidth(text, LEDGER_HEADER, 6);
      EntriesOf(rows.value)
  }

  /** saveLedger */
  function PrintLedger(entries: seq<Entry>): string {
    PrintTable(LEDGER_HEADER, AllEntryCells(entries))
  }

  predicate CleanEntry(e: Entry) {
    IsClean(e.pr) && IsClean(e.sha) && IsClean(e.evidence) && IsClean(e.verifier) && IsClean(e.ts)
  }

  predicate SameKey(a: Entry, b: Entry) {
    a.pr == b.pr && a.sha == b.sha
  }

  ghost predicate LedgerOk(entries: seq<Entry>) {
    && (forall i :: 0 <= i < |entries| ==> CleanEntry(entries[i]))
    && (forall i, j :: 0 <= i < j < |entries| ==> !SameKey(entries[i], entries[j]))
  }

  lemma {:induction false} EntriesBack(entries: seq<Entry>)
    ensures EntriesOf(AllEntryCells(entries)) == Ok(entries)
  {
    if entries != [] {
      EntriesBack(entries[1..]);
      VerdictRoundTrip(entries[0].verdict);
      assert AllEntryCells(entries)[1..] == AllEntryCells(entries[1..]);
      assert entries == [entries[0]] + entries[1..];
    }
  }

  /** Saving and reading the ledger are inverse on clean entries. */
  lemma LedgerRoundTrip(entries: seq<Entry>)
    requires forall i :: 0 <= i < |entries| ==> CleanEntry(entries[i])
    ensures ReadLedger(PrintLedger(entries)) == Ok(entries)
  {
    hide PrintTable, ParseTable, EntriesOf, ParseVerdict, IsClean, VerdictText;
    var rows := AllEntryCells(entries);
    forall i, j | 0 <= i < |rows| && 0 <= j < 6 ensures IsClean(rows[i][j]) {
      assert CleanEntry(entries[i]);
      VerdictIsClean(entries[i].verdict);
    }
    CleanTableRoundTrip(LEDGER_HEADER, rows, 6);
    EntriesBack(entries);
  }

  /** The ledger after recording e: its key's row replaced, or a new last row. */
  function Upsert(entries: seq<Entry>, e: Entry): seq<Entry> {
    if entries == [] then [e]
    else if SameKey(entries[0], e) then [e] + entries[1..]
    else [entries[0]] + Upsert(entries[1..], e)
  }

  function Lookup(entries: seq<Entry>, pr: string, sha: string): Option<Entry> {
    if entries == [] then None
    else if entries[0].pr == pr && entries[0].sha == sha then Some(entries[0])
    else Lookup(entries[1..], pr, sha)
  }

  lemma UpsertFirst(entries: seq<Entry>, e: Entry)
    ensures entries == [] ==> Upsert(entries, e) == entries + [e]
    ensures entries != [] ==>
      Upsert(entries, e) == if SameKey(entries[0], e) then entries[0 := e] else [entries[0]] + Upsert(entries[1..], e)
  {
    if entries != [] {
      assert entries[0 := e] == [e] + entries[1..];
    }
  }

  lemma {:induction false} UpsertAt(entries: seq<Entry>, e: Entry, i: nat)
    requires i <= |entries|
    requires forall j :: 0 <= j < i ==> !SameKey(entries[j], e)
    requires i < |entries| ==> SameKey(entries[i], e)
    ensures Upsert(entries, e) == if i < |entries| then entries[i := e] else entries + [e]
  {
    hide SameKey, Upsert;
    UpsertFirst(entries, e);
    if i > 0 {
      var rest := entries[1..];
      assert forall j :: 0 <= j < i - 1 ==> rest[j] == entries[j + 1];
      UpsertAt(rest, e, i - 1);
      assert entries == [entries[0]] + rest;
      if i < |entries| {
        assert entries[i := e] == [entries[0]] + rest[i - 1 := e];
      } else {
        assert entries + [e] == [entries[0]] + (rest + [e]);
      }
    }
  }

  lemma {:induction false} UpsertKeepsUnique(entries: seq<Entry>, e: Entry)
    requires LedgerOk(entries) && CleanEntry(e)
    ensures LedgerOk(Upsert(entries, e))
    ensures forall x :: x in Upsert(entries, e) ==> x == e || x in entries
  {
    if entries != [] && !SameKey(entries[0], e) {
      UpsertKeepsUnique(entries[1..], e);
      var rest := Upsert(entries[1..], e);
      forall j | 0 <= j < |rest| ensures !SameKey(entries[0], rest[j]) {
        assert rest[j] == e || rest[j] in entries[1..];
      }
      assert Upsert(entries, e) == [entries[0]] + rest;
    }
  }

  /** Recording changes the answer for its own key and for no other. */
  lemma {:induction false} LookupUpsert(entries: seq<Entry>, e: Entry, pr: string, sha: string)
    ensures Lookup(Upsert(entries, e), pr, sha) ==
      if e.pr == pr && e.sha == sha then Some(e) else Lookup(entries, pr, sha)
  {
    if entries != [] && !SameKey(entries[0], e) {
      LookupUpsert(entries[1..], e, pr, sha);
    }
  }

  function RecordAll(history: seq<Entry>): seq<Entry> {
    if history == [] then [] else Upsert(RecordAll(history[..|history| - 1]), history[|history| - 1])
  }

  function LastRecorded(history: seq<Entry>, pr: string, sha: string): Option<Entry> {
    if history == [] then None
    else
      var last := history[|history| - 1];
      if last.pr == pr && last.sha == sha then Some(last) else LastRecorded(history[..|history| - 1], pr, sha)
  }

  lemma RecordAppend(history: seq<Entry>, e: Entry)
    ensures RecordAll(history + [e]) == Upsert(RecordAll(history), e)
  {
    assert (history + [e])[..|history|] == history;
  }

  /** Main result: after any sequence of records, the pairs are unique and a check
      answers with the last entry recorded for its pair. */
  lemma {:induction false} CheckFindsLastRecorded(history: seq<Entry>, pr: string, sha: string)
    requires forall i :: 0 <= i < |history| ==> CleanEntry(history[i])
    ensures LedgerOk(RecordAll(history))
    ensures Lookup(RecordAll(history), pr, sha) == LastRecorded(history, pr, sha)
    ensures ReadLedger(PrintLedger(RecordAll(history))) == Ok(RecordAll(history))
  {
    if history != [] {
      var before, e := history[..|history| - 1], history[|history| - 1];
      CheckFindsLastRecorded(before, pr, sha);
      UpsertKeepsUnique(RecordAll(before), e);
      LookupUpsert(RecordAll(before), e, pr, sha);
    }
    LedgerRoundTrip(RecordAll(history));
  }

  class LedgerFile {
    var text: string
    /** Every entry recorded so far, oldest first. */
    ghost var history: seq<Entry>

    ghost predicate Valid()
      reads this
    {
      && (forall i :: 0 <= i < |history| ==> CleanEntry(history[i]))
      && ReadLedger(text) == Ok(RecordAll(history))
    }

    constructor ()
      ensures Valid() && history == []
    {
      text := PrintLedger([]);
      history := [];
      new;
      LedgerRoundTrip([]);
    }

    /** ledger.record */
    method Record(pr: int, sha: string, verdict: string, evidence: string, verifier: Option<string>, now: string)
        returns (r: Result<Entry, StoreError>)
      requires Valid() && IsClean(now)
      modifies this
      ensures Valid()
      ensures r.Ok? <==>
        && ParseVerdict(verdict).Some? && pr > 0 && RequiredCell(sha).Ok? && RequiredCell(evidence).Ok?
        && (verifier.Some? ==> RequiredCell(verifier.value).Ok?)
      ensures r.Ok? ==>
        && r.value == Entry(Decimal(pr), CleanCell(sha), ParseVerdict(verdict).value, CleanCell(evidence),
                            if verifier.Some? then CleanCell(verifier.value) else "", now)
        && history == old(history) + [r.value]
      ensures r.Err? ==> text == old(text) && history == old(history)
      ensures r.Err? ==>
        r.error == if ParseVerdict(verdict).None? then BadVerdict else if pr < 1 then NotPositive else EmptyField
    {
      hide ReadLedger, RequiredCell, CleanCell, IsClean, Decimal, ParseVerdict, LedgerOk, VerdictText, Upsert,
        RecordAll, Lookup, LastRecorded, PrintLedger;
      var parsed := ParseVerdict(verdict);
      if parsed.None? {
        return Err(BadVerdict);
      }
      if pr < 1 {
        return Err(NotPositive);
      }
      RequiredMeansClean(sha);
      RequiredMeansClean(evidence);
      PlainCells();
      var cleanVerifier: Result<string, StoreError> := Ok("");
      if verifier.Some? {
        RequiredMeansClean(verifier.value);
        cleanVerifier := RequiredCell(verifier.value);
      }
      if RequiredCell(sha).Err? || RequiredCell(evidence).Err? || cleanVerifier.Err? {
        return Err(EmptyField);
      }
      DecimalIsClean(pr);
      var row := Entry(Decimal(pr), RequiredCell(sha).value, parsed.value, RequiredCell(evidence).value,
        cleanVerifier.value, now);
      var rows := ReadLedger(text).value;
      var index := 0;
      while index < |rows| && !SameKey(rows[index], row)
        invariant index <= |rows| && forall j :: 0 <= j < index ==> !SameKey(rows[j], row)
      {
        index := index + 1;
      }
      UpsertAt(rows, row, index);
      rows := if index < |rows| then rows[index := row] else rows + [row];
      text := PrintLedger(rows);
      history := history + [row];
      RecordAppend(old(history), row);
      CheckFindsLastRecorded(history, row.pr, row.sha);
      r := Ok(row);
    }

    /** ledger.check: the last verdict recorded for the pair, or NOT-VERIFIED. */
    method Check(pr: int, sha: string) returns (r: Result<Entry, StoreError>)
      requires Valid()
      ensures pr <= 0 ==> r == Err(NotPositive)
      ensures pr > 0 && RequiredCell(sha).Err? ==> r == Err(EmptyField)
      ensures pr > 0 && RequiredCell(sha).Ok? ==>
        r == (var last := LastRecorded(history, Decimal(pr), CleanCell(sha));
              if last.Some? then Ok(last.value) else Err(NotFound))
    {
      if pr < 1 {
        return Err(NotPositive);
      }
      RequiredMeansClean(sha);
      var cleanSha := RequiredCell(sha);
      if cleanSha.Err? {
        return Err(EmptyField);
      }
      CheckFindsLastRecorded(history, Decimal(pr), cleanSha.value);
      var found := Lookup(ReadLedger(text).value, Decimal(pr), cleanSha.value);
      r := if found.Some? then Ok(found.value) else Err(NotFound);
    }
  }
}
