/** The standing orders file of the orchestration store (orch/store.ts: readStanding,
    standing.show, standing.add): numbered lines that are reread before each addition. */
module OrchStanding {
  import opened Common
  import opened OrchText

  datatype StandingLine = StandingLine(number: nat, line: string)

  // --------------------------------------------------------- print and parse

  function Printed(row: StandingLine): string {
    Decimal(row.number) + ". " + row.line
  }

  function PrintedLines(rows: seq<StandingLine>): (r: seq<string>)
    ensures |r| == |rows| && forall i :: 0 <= i < |rows| ==> r[i] == Printed(rows[i])
  {
    seq(|rows|, i requires 0 <= i < |rows| => Printed(rows[i]))
  }

  /** What standing.add writes. */
  function Print(rows: seq<StandingLine>): string {
    Join(PrintedLines(rows), "\n") + "\n"
  }

  function DigitSpan(s: string): (k: nat)
    ensures k <= |s| && (forall j :: 0 <= j < k ==> IsDigit(s[j])) && (k < |s| ==> !IsDigit(s[k]))
  {
    if s == "" || !IsDigit(s[0]) then 0 else 1 + DigitSpan(s[1..])
  }

  /** /^([1-9]\d*)\. (.+)$/ */
  function MatchOrder(line: string): Option<StandingLine> {
    var k := DigitSpan(line);
    if k == 0 || line[0] == '0' || k + 2 >= |line| || line[k] != '.' || line[k + 1] != ' '
      || !NoTerminator(line[k + 2..])
    then None
    else Some(StandingLine(ParseDecimal(line[..k]), line[k + 2..]))
  }

  function ReadOrders(lines: seq<string>): Result<seq<StandingLine>, StoreError> {
    if lines == [] then Ok([])
    else
      var before, row := ReadOrders(lines[..|lines| - 1]), MatchOrder(lines[|lines| - 1]);
      if before.Err? then before
      else if row.None? || row.value.number != |before.value| + 1 then Err(Malformed)
      else Ok(before.value + [row.value])
  }

  /** What readStanding should return for the file's text. */
  function Read(text: string): Result<seq<StandingLine>, StoreError> {
    var raw := DropReturns(text);
    if Trim(raw) == "" then Ok([]) else ReadOrders(NonEmptyLines(Split(raw, '\n')))
  }

  lemma {:induction false} ErrorSticks(lines: seq<string>, i: nat)
    requires i <= |lines| && ReadOrders(lines[..i]).Err?
    ensures ReadOrders(lines) == ReadOrders(lines[..i])
    decreases |lines|
  {
    if i < |lines| {
      assert lines[..|lines| - 1][..i] == lines[..i];
      ErrorSticks(lines[..|lines| - 1], i);
    } else {
      assert lines[..i] == lines;
    }
  }

  /** readStanding */
  method ReadStanding(text: string) returns (r: Result<seq<StandingLine>, StoreError>)
    ensures r == Read(text)
  {
    var raw := DropReturns(text);
    if Trim(raw) == "" {
      return Ok([]);
    }
    var lines := NonEmptyLines(Split(raw, '\n'));
    var result := [];
    for i := 0 to |lines|
      invariant ReadOrders(lines[..i]) == Ok(result)
    {
      assert lines[..i + 1][..i] == lines[..i];
      var row := MatchOrder(lines[i]);
      if row.None? || row.value.number != |result| + 1 {
        ErrorSticks(lines, i + 1);
        return Err(Malformed);
      }
      result := result + [row.value];
    }
    assert lines[..|lines|] == lines;
    r := Ok(result);
  }

  // -------------------------------------------------------------- round trip

  /** Rows as standing.add numbers them, each a requiredLine text. */
  ghost predicate Numbered(rows: seq<StandingLine>) {
    forall i :: 0 <= i < |rows| ==> rows[i].number == i + 1 && IsLine(rows[i].line)
  }

  predicate Readable(rows: seq<StandingLine>) {
    forall i :: 0 <= i < |rows| ==> NoTerminator(rows[i].line)
  }

  lemma DigitsEnd(digits: string, rest: string)
    requires (forall c :: c in digits ==> IsDigit(c)) && rest != "" && !IsDigit(rest[0])
    ensures DigitSpan(digits + rest) == |digits|
  {
    var s := digits + rest;
    var k := DigitSpan(s);
    forall j | 0 <= j < |digits| ensures IsDigit(s[j]) {
      assert s[j] == digits[j] && digits[j] in digits;
    }
    assert s[|digits|] == rest[0];
  }

  /** A printed order matches its number and text, for any number of digits. */
  lemma OrderBack(row: StandingLine)
    requires row.number > 0 && row.line != ""
    ensures MatchOrder(Printed(row)) == if NoTerminator(row.line) then Some(row) else None
  {
    hide IsDigit, NoTerminator, Decimal, ParseDecimal;
    var digits, rest := Decimal(row.number), ". " + row.line;
    DecimalRoundTrip(row.number);
    DotIsNoDigit();
    DigitsEnd(digits, rest);
    var line := Printed(row);
    assert line == digits + rest;
    assert line[0] == digits[0] && line[..|digits|] == digits;
    assert line[|digits|] == rest[0] && line[|digits| + 1] == rest[1];
    assert line[|digits| + 2..] == row.line;
  }

  lemma DotIsNoDigit()
    ensures !IsDigit('.')
  {
  }

  lemma {:induction false} OrdersBack(rows: seq<StandingLine>)
    requires Numbered(rows)
    ensures ReadOrders(PrintedLines(rows)) == if Readable(rows) then Ok(rows) else Err(Malformed)
  {
    hide Printed, MatchOrder, NoTerminator, IsLine;
    if rows != [] {
      var before, last := rows[..|rows| - 1], rows[|rows| - 1];
      assert last.line != "" by {
        LineIsNotEmpty(last.line);
      }
      OrdersBack(before);
      OrderBack(last);
      assert PrintedLines(rows)[..|rows| - 1] == PrintedLines(before);
      assert rows == before + [last];
      assert Readable(rows) <==> Readable(before) && NoTerminator(last.line);
    }
  }

  lemma LineIsNotEmpty(line: string)
    requires IsLine(line)
    ensures line != ""
  {
  }

  lemma PrintedLineFacts(row: StandingLine)
    requires IsLine(row.line)
    ensures Printed(row) != "" && '\n' !in Printed(row) && '\r' !in Printed(row) && Trimmed(Printed(row))
  {
    DecimalRoundTrip(row.number);
    var line, digits := Printed(row), Decimal(row.number);
    assert digits[0] in digits;
    assert line[0] == digits[0] && line[|line| - 1] == row.line[|row.line| - 1];
    forall c | c in line ensures c != '\n' && c != '\r' {
      assert c in digits || c in ". " || c in row.line;
    }
  }

  lemma JoinStart(parts: seq<string>, sep: string)
    requires parts != [] && parts[0] != ""
    ensures Join(parts, sep) != "" && Join(parts, sep)[0] == parts[0][0]
  {
  }

  /** Main result: a printed list of any length reads back exactly when no line holds
      a character that `.` does not match; otherwise the file is refused. */
  lemma StandingRoundTrip(rows: seq<StandingLine>)
    requires Numbered(rows) && rows != []
    ensures Read(Print(rows)) == if Readable(rows) then Ok(rows) else Err(Malformed)
  {
    hide Printed, IsLine, IsSpace, ReadOrders, Join, Split, NonEmptyLines, DropReturns, Trim, Readable;
    var lines := PrintedLines(rows);
    forall i | 0 <= i < |lines|
      ensures lines[i] != "" && '\n' !in lines[i] && '\r' !in lines[i] && Trimmed(lines[i])
    {
      PrintedLineFacts(rows[i]);
    }
    var body := Join(lines, "\n");
    JoinChars(lines, "\n", '\r');
    DropReturnsKeeps(body + "\n");
    JoinStart(lines, "\n");
    JoinEnds(lines, "\n");
    TrimNewline(body);
    JoinFinalBreak(lines);
    SplitJoin(lines + [""], '\n');
    FinalBreakIsDropped(lines);
    OrdersBack(rows);
  }

  /** The round trip does fail: a line that standing.add accepts and cannot read again. */
  lemma SeparatorIsLost()
    ensures var line := ['a', LINE_SEPARATOR, 'b'];
            RequiredLine(line) == Ok(line) && Read(Print([StandingLine(1, line)])) == Err(Malformed)
  {
    var line := ['a', LINE_SEPARATOR, 'b'];
    ReplaceFacts(line, LINE_BREAKS);
    TrimKeeps(line);
    assert line[1] in line;
    var rows := [StandingLine(1, line)];
    assert !NoTerminator(rows[0].line);
    StandingRoundTrip(rows);
  }

  // ------------------------------------------------------------ standing.add

  class StandingFile {
    var text: string
    /** The orders added so far, oldest first. */
    ghost var rows: seq<StandingLine>

    ghost predicate Valid()
      reads this
    {
      Numbered(rows) && text == if rows == [] then "" else Print(rows)
    }

    constructor ()
      ensures Valid() && rows == []
    {
      text := "";
      rows := [];
    }

    /** standing.show */
    method Show() returns (r: Result<seq<StandingLine>, StoreError>)
      requires Valid()
      ensures r == if Readable(rows) then Ok(rows) else Err(Malformed)
    {
      if rows != [] {
        StandingRoundTrip(rows);
      }
      r := ReadStanding(text);
    }

    /** standing.add */
    method Add(line: string) returns (r: Result<StandingLine, StoreError>)
      requires Valid()
      modifies this
      ensures Valid()
      ensures r.Ok? <==> old(Readable(rows)) && RequiredLine(line).Ok?
      ensures r.Ok? ==>
        r.value == StandingLine(|old(rows)| + 1, RequiredLine(line).value) && rows == old(rows) + [r.value]
      ensures r.Err? ==> text == old(text) && rows == old(rows)
      ensures r.Err? ==> r.error == if old(Readable(rows)) then EmptyField else Malformed
    {
      hide RequiredLine, IsLine, Readable, Print, Read;
      var read := Show();
      if read.Err? {
        return Err(Malformed);
      }
      RequiredLineIsLine(line);
      if RequiredLine(line).Err? {
        return Err(EmptyField);
      }
      var item := StandingLine(|read.value| + 1, RequiredLine(line).value);
      rows := read.value + [item];
      text := Print(read.value + [item]);
      r := Ok(item);
    }
  }
}
