/** The gates file of the orchestration store (orch/store.ts: renderGates, readGates,
    gates.park, gates.resolve). */
module OrchGates {
  import opened Common
  import opened OrchText

  /** An open gate has no answer. */
  datatype Gate = Gate(id: string, question: string, options: string, fallback: string, answer: Option<string>)

  // -------------------------------------------------------------- rendering

  const HEADING: string := "# Gates\n\n## "
  const BETWEEN: string := "\n\n## "

  function StatusText(g: Gate): string {
    if g.answer.Some? then "resolved" else "open"
  }

  /** The lines of one gate after its id. */
  function FieldLines(g: Gate): seq<string> {
    ["- Status: " + StatusText(g), "- Question: " + g.question, "- Options: " + g.options, "- Default: " + g.fallback]
    + (if g.answer.Some? then ["- Answer: " + g.answer.value] else [])
  }

  function Block(g: Gate): string {
    Join([g.id, ""] + FieldLines(g), "\n")
  }

  function Blocks(gates: seq<Gate>): (r: seq<string>)
    ensures |r| == |gates| && forall i :: 0 <= i < |gates| ==> r[i] == Block(gates[i])
  {
    seq(|gates|, i requires 0 <= i < |gates| => Block(gates[i]))
  }

  /** renderGates */
  function Render(gates: seq<Gate>): string {
    if gates == [] then "" else HEADING + Join(Blocks(gates), BETWEEN) + "\n"
  }

  // ---------------------------------------------------------------- parsing

  /** text.split(sep) */
  function SplitOn(s: string, sep: string): (r: seq<string>)
    requires sep != ""
    ensures |r| >= 1
    decreases |s|
  {
    if |s| < |sep| then [s]
    else if s[..|sep|] == sep then [""] + SplitOn(s[|sep|..], sep)
    else
      var rest := SplitOn(s[1..], sep);
      [[s[0]] + rest[0]] + rest[1..]
  }

  function FirstColon(s: string): (i: nat)
    ensures i <= |s| && (forall j :: 0 <= j < i ==> s[j] != ':') && (i < |s| ==> s[i] == ':')
  {
    if s == "" || s[0] == ':' then 0 else 1 + FirstColon(s[1..])
  }

  /** /^- ([^:]+): (.*)$/ */
  function MatchField(line: string): Option<(string, string)> {
    if |line| < 2 || line[..2] != "- " then None
    else
      var rest := line[2..];
      var k := FirstColon(rest);
      if k == 0 || k + 2 > |rest| || rest[k + 1] != ' ' || !NoTerminator(rest[k + 2..]) then None
      else Some((rest[..k], rest[k + 2..]))
  }

  function ReadFields(lines: seq<string>): Result<map<string, string>, StoreError> {
    if lines == [] then Ok(map[])
    else
      var before, field := ReadFields(lines[..|lines| - 1]), MatchField(lines[|lines| - 1]);
      if before.Err? then before
      else if field.None? then Err(Malformed)
      else Ok(before.value[field.value.0 := field.value.1])
  }

  function ReadBlock(block: string): Result<Gate, StoreError> {
    var lines := NonEmptyLines(Split(block, '\n'));
    var id := if lines == [] then "" else lines[0];
    var fields := ReadFields(if lines == [] then [] else lines[1..]);
    if fields.Err? then Err(Malformed)
    else
      var f := fields.value;
      if id == "" || "Question" !in f || "Options" !in f || "Default" !in f then Err(Malformed)
      else if "Status" in f && f["Status"] == "open" then Ok(Gate(id, f["Question"], f["Options"], f["Default"], None))
      else if "Status" in f && f["Status"] == "resolved" && "Answer" in f
      then Ok(Gate(id, f["Question"], f["Options"], f["Default"], Some(f["Answer"])))
      else Err(Malformed)
  }

  function ReadBlocks(blocks: seq<string>): Result<seq<Gate>, StoreError> {
    if blocks == [] then Ok([])
    else
      var first, rest := ReadBlock(blocks[0]), ReadBlocks(blocks[1..]);
      if first.Err? then Err(first.error)
      else if rest.Err? then rest
      else Ok([first.value] + rest.value)
  }

  predicate UniqueIds(gates: seq<Gate>) {
    forall i, j :: 0 <= i < j < |gates| ==> gates[i].id != gates[j].id
  }

  /** What readGates should return for the file's text. */
  function Read(text: string): Result<seq<Gate>, StoreError> {
    var raw := Trim(DropReturns(text));
    if raw == "" then Ok([])
    else if !(HEADING <= raw) then Err(Malformed)
    else
      var gates := ReadBlocks(SplitOn(raw[|HEADING|..], BETWEEN));
      if gates.Ok? && !UniqueIds(gates.value) then Err(Malformed) else gates
  }

  lemma {:induction false} ErrorSticks(lines: seq<string>, i: nat)
    requires i <= |lines| && ReadFields(lines[..i]).Err?
    ensures ReadFields(lines).Err?
    decreases |lines|
  {
    if i < |lines| {
      assert lines[..|lines| - 1][..i] == lines[..i];
      ErrorSticks(lines[..|lines| - 1], i);
    } else {
      assert lines[..i] == lines;
    }
  }

  /** The part of readGates that reads one block. */
  method ReadGate(block: string) returns (r: Result<Gate, StoreError>)
    ensures r == ReadBlock(block)
  {
    var all := NonEmptyLines(Split(block, '\n'));
    var id, lines := if all == [] then "" else all[0], if all == [] then [] else all[1..];
    var fields: map<string, string> := map[];
    for i := 0 to |lines|
      invariant ReadFields(lines[..i]) == Ok(fields)
    {
      assert lines[..i + 1][..i] == lines[..i];
      var field := MatchField(lines[i]);
      if field.None? {
        ErrorSticks(lines, i + 1);
        return Err(Malformed);
      }
      fields := fields[field.value.0 := field.value.1];
    }
    assert lines[..|lines|] == lines;
    if id == "" || "Question" !in fields || "Options" !in fields || "Default" !in fields {
      return Err(Malformed);
    }
    if "Status" in fields && fields["Status"] == "open" {
      r := Ok(Gate(id, fields["Question"], fields["Options"], fields["Default"], None));
    } else if "Status" in fields && fields["Status"] == "resolved" && "Answer" in fields {
      r := Ok(Gate(id, fields["Question"], fields["Options"], fields["Default"], Some(fields["Answer"])));
    } else {
      r := Err(Malformed);
    }
  }

  ghost function Prepended(first: seq<Gate>, rest: Result<seq<Gate>, StoreError>): Result<seq<Gate>, StoreError> {
    if rest.Err? then rest else Ok(first + rest.value)
  }

  lemma PrependedStep(first: seq<Gate>, blocks: seq<string>)
    requires blocks != []
    ensures ReadBlock(blocks[0]).Ok? ==>
      Prepended(first, ReadBlocks(blocks)) == Prepended(first + [ReadBlock(blocks[0]).value], ReadBlocks(blocks[1..]))
    ensures ReadBlock(blocks[0]).Err? ==> Prepended(first, ReadBlocks(blocks)) == Err(ReadBlock(blocks[0]).error)
  {
    hide ReadBlock;
    var rest := ReadBlocks(blocks[1..]);
    if ReadBlock(blocks[0]).Ok? && rest.Ok? {
      var g := ReadBlock(blocks[0]).value;
      assert first + ([g] + rest.value) == first + [g] + rest.value;
    }
  }

  lemma PrependedNothing(blocks: seq<string>)
    ensures Prepended([], ReadBlocks(blocks[0..])) == ReadBlocks(blocks)
  {
    hide ReadBlock, ReadBlocks;
    assert blocks[0..] == blocks;
    var all := ReadBlocks(blocks);
    assert all.Ok? ==> [] + all.value == all.value;
  }

  /** readGates */
  method ReadGates(text: string) returns (r: Result<seq<Gate>, StoreError>)
    ensures r == Read(text)
  {
    hide ReadBlock, SplitOn, Trim, DropReturns;
    var raw := Trim(DropReturns(text));
    if raw == "" {
      return Ok([]);
    }
    if !(HEADING <= raw) {
      return Err(Malformed);
    }
    var blocks, result := SplitOn(raw[|HEADING|..], BETWEEN), [];
    PrependedNothing(blocks);
    for i := 0 to |blocks|
      invariant ReadBlocks(blocks) == Prepended(result, ReadBlocks(blocks[i..]))
    {
      PrependedStep(result, blocks[i..]);
      assert blocks[i..][0] == blocks[i] && blocks[i..][1..] == blocks[i + 1..];
      var gate := ReadGate(blocks[i]);
      if gate.Err? {
        return Err(gate.error);
      }
      result := result + [gate.value];
    }
    assert blocks[|blocks|..] == [] && result + [] == result;
    r := if UniqueIds(result) then Ok(result) else Err(Malformed);
  }

  // ------------------------------------------------------------- one gate back

  /** A gate as park and resolve build it from requiredLine texts. */
  predicate LineGate(g: Gate) {
    && IsLine(g.id) && IsLine(g.question) && IsLine(g.options) && IsLine(g.fallback)
    && (g.answer.Some? ==> IsLine(g.answer.value))
  }

  /** No field value holds a character that `.` does not match. */
  predicate Readable(g: Gate) {
    NoTerminator(g.question) && NoTerminator(g.options) && NoTerminator(g.fallback)
    && (g.answer.Some? ==> NoTerminator(g.answer.value))
  }

  /** A printed field matches, unless its value holds a line terminator. */
  lemma FieldBack(name: string, value: string)
    requires name != "" && ':' !in name
    ensures MatchField("- " + name + ": " + value) == if NoTerminator(value) then Some((name, value)) else None
  {
    var line := "- " + name + ": " + value;
    var rest := name + ": " + value;
    assert line[..2] == "- " && line[2..] == rest;
    var k := FirstColon(rest);
    assert rest[|name|] == ':';
    forall j | 0 <= j < |name| ensures rest[j] != ':' {
      assert rest[j] == name[j] && name[j] in name;
    }
    assert k == |name|;
    assert rest[..k] == name && rest[k + 2..] == value;
  }

  type Fields = Result<map<string, string>, StoreError>

  /** One more field value read. */
  ghost function Add(before: Fields, name: string, value: string): Fields {
    if before.Err? || !NoTerminator(value) then Err(Malformed) else Ok(before.value[name := value])
  }

  lemma ReadFieldsAppend(lines: seq<string>, name: string, value: string, line: string)
    requires name != "" && ':' !in name && line == "- " + name + ": " + value
    ensures ReadFields(lines + [line]) == Add(ReadFields(lines), name, value)
  {
    FieldBack(name, value);
    ReadErrors(lines);
    assert (lines + [line])[..|lines|] == lines;
  }

  lemma {:induction false} ReadErrors(lines: seq<string>)
    ensures ReadFields(lines).Err? ==> ReadFields(lines) == Err(Malformed)
  {
    if lines != [] {
      ReadErrors(lines[..|lines| - 1]);
    }
  }

  lemma StatusHasNoTerminator(g: Gate)
    ensures NoTerminator(StatusText(g))
  {
  }

  /** The field values of a gate, in the order in which they are printed. */
  ghost function Added(g: Gate): Fields {
    var four := Add(Add(Add(Add(Ok(map[]), "Status", StatusText(g)), "Question", g.question), "Options", g.options),
                    "Default", g.fallback);
    if g.answer.Some? then Add(four, "Answer", g.answer.value) else four
  }

  lemma LinesAreAdded(g: Gate)
    ensures ReadFields(FieldLines(g)) == Added(g)
  {
    hide Add, ReadFields, StatusText;
    var s, q := "- Status: " + StatusText(g), "- Question: " + g.question;
    var o, d := "- Options: " + g.options, "- Default: " + g.fallback;
    NoFields();
    ReadFieldsAppend([], "Status", StatusText(g), s);
    ReadFieldsAppend([] + [s], "Question", g.question, q);
    ReadFieldsAppend([] + [s] + [q], "Options", g.options, o);
    ReadFieldsAppend([] + [s] + [q] + [o], "Default", g.fallback, d);
    var four := [] + [s] + [q] + [o] + [d];
    assert four == [s, q, o, d];
    if g.answer.Some? {
      var a := "- Answer: " + g.answer.value;
      ReadFieldsAppend(four, "Answer", g.answer.value, a);
      assert FieldLines(g) == four + [a];
    } else {
      assert FieldLines(g) == four;
    }
  }

  /** The printed field lines of a gate read back exactly when the gate is readable. */
  lemma FieldsBack(g: Gate)
    ensures ReadFields(FieldLines(g)).Ok? <==> Readable(g)
    ensures Readable(g) ==>
      var f := ReadFields(FieldLines(g)).value;
      && "Status" in f && f["Status"] == StatusText(g) && "Question" in f && f["Question"] == g.question
      && "Options" in f && f["Options"] == g.options && "Default" in f && f["Default"] == g.fallback
      && (g.answer.Some? ==> "Answer" in f && f["Answer"] == g.answer.value)
  {
    StatusHasNoTerminator(g);
    LinesAreAdded(g);
    hide NoTerminator, ReadFields, StatusText, FieldLines;
  }

  lemma NoFields()
    ensures ReadFields([]) == Ok(map[])
  {
  }

  /** A line of a gate's text after the id. */
  ghost predicate FieldLine(line: string) {
    && '\n' !in line && '\r' !in line && |line| >= 2 && line[0] == '-' && !IsSpace(line[|line| - 1])
  }

  lemma PrefixedLine(prefix: string, value: string)
    requires prefix != "" && prefix[0] == '-' && '\n' !in prefix && '\r' !in prefix && IsLine(value)
    ensures FieldLine(prefix + value)
  {
    hide IsSpace;
    var line := prefix + value;
    assert line[|line| - 1] == value[|value| - 1];
  }

  lemma LinesOfGate(g: Gate)
    requires LineGate(g)
    ensures |FieldLines(g)| >= 4
    ensures forall i :: 0 <= i < |FieldLines(g)| ==> FieldLine(FieldLines(g)[i])
  {
    StatusIsLine(g);
    hide FieldLine, IsLine, StatusText;
    PrefixedLine("- Status: ", StatusText(g));
    PrefixedLine("- Question: ", g.question);
    PrefixedLine("- Options: ", g.options);
    PrefixedLine("- Default: ", g.fallback);
    if g.answer.Some? {
      PrefixedLine("- Answer: ", g.answer.value);
    }
  }

  lemma StatusIsLine(g: Gate)
    ensures IsLine(StatusText(g))
  {
    var status := StatusText(g);
    assert status[0] in "or" && status[|status| - 1] in "nd";
  }

  lemma NonEmptyGateLines(g: Gate)
    requires LineGate(g)
    ensures NonEmptyLines([g.id, ""] + FieldLines(g)) == [g.id] + FieldLines(g)
  {
    LinesOfGate(g);
    NonEmptyKeeps(FieldLines(g));
    NonEmptyAppend([g.id, ""], FieldLines(g));
    assert [g.id, ""][1..] == [""];
    assert NonEmptyLines([""]) == [];
  }

  /** A printed gate reads back exactly when it is readable. */
  lemma BlockBack(g: Gate)
    requires LineGate(g)
    ensures ReadBlock(Block(g)) == if Readable(g) then Ok(g) else Err(Malformed)
  {
    hide IsSpace, NoTerminator, FieldLines, ReadFields, NonEmptyLines, Split, Join;
    var lines := [g.id, ""] + FieldLines(g);
    LinesOfGate(g);
    assert forall p :: p in lines ==> '\n' !in p;
    SplitJoin(lines, '\n');
    NonEmptyGateLines(g);
    assert ([g.id] + FieldLines(g))[1..] == FieldLines(g);
    FieldsBack(g);
  }

  lemma {:induction false} BlocksBack(gates: seq<Gate>)
    requires forall i :: 0 <= i < |gates| ==> LineGate(gates[i])
    ensures ReadBlocks(Blocks(gates)) ==
      if forall i :: 0 <= i < |gates| ==> Readable(gates[i]) then Ok(gates) else Err(Malformed)
  {
    hide LineGate, Readable, ReadBlock;
    if gates != [] {
      BlocksBack(gates[1..]);
      BlockBack(gates[0]);
      assert Blocks(gates)[1..] == Blocks(gates[1..]);
      assert gates == [gates[0]] + gates[1..];
    }
  }

  // ------------------------------------------------ splitting between gates

  /** No separator starts inside p, even when p is followed by one. */
  ghost predicate NoneStartsIn(p: string, sep: string) {
    forall i :: 0 <= i < |p| ==> !(sep <= (p + sep)[i..])
  }

  lemma NoneStartsInTail(p: string, sep: string)
    requires NoneStartsIn(p, sep) && p != ""
    ensures NoneStartsIn(p[1..], sep)
  {
    forall i | 0 <= i < |p| - 1 ensures !(sep <= (p[1..] + sep)[i..]) {
      assert (p[1..] + sep)[i..] == (p + sep)[i + 1..];
    }
  }

  lemma {:induction false} SplitOnLast(p: string, sep: string)
    requires sep != "" && NoneStartsIn(p, sep)
    ensures SplitOn(p, sep) == [p]
    decreases |p|
  {
    if |p| >= |sep| {
      NoneStartsInTail(p, sep);
      SplitOnLast(p[1..], sep);
      assert (p + sep)[0..][..|sep|] == p[..|sep|];
      assert p == [p[0]] + p[1..];
    }
  }

  lemma {:induction false} SplitOnPart(p: string, sep: string, rest: string)
    requires sep != "" && NoneStartsIn(p, sep)
    ensures SplitOn(p + sep + rest, sep) == [p] + SplitOn(rest, sep)
    decreases |p|
  {
    var s := p + sep + rest;
    if p == "" {
      assert s[..|sep|] == sep && s[|sep|..] == rest;
    } else {
      NoneStartsInTail(p, sep);
      SplitOnPart(p[1..], sep, rest);
      assert s[1..] == p[1..] + sep + rest;
      assert (p + sep)[0..][..|sep|] == s[..|sep|];
      assert p == [p[0]] + p[1..];
    }
  }

  /** Splitting undoes joining when no separator starts inside a part. */
  lemma {:induction false} SplitOnJoin(parts: seq<string>, sep: string)
    requires sep != "" && parts != [] && forall i :: 0 <= i < |parts| ==> NoneStartsIn(parts[i], sep)
    ensures SplitOn(Join(parts, sep), sep) == parts
  {
    hide NoneStartsIn, SplitOn;
    if |parts| == 1 {
      SplitOnLast(parts[0], sep);
      assert parts == [parts[0]];
    } else {
      SplitOnJoin(parts[1..], sep);
      SplitOnPart(parts[0], sep, Join(parts[1..], sep));
      assert parts == [parts[0]] + parts[1..];
    }
  }

  /** Every line break is followed by something other than a line break. */
  ghost predicate SingleBreaks(s: string) {
    forall i :: 0 <= i < |s| && s[i] == '\n' ==> i + 1 < |s| && s[i + 1] != '\n'
  }

  lemma {:induction false} JoinedLinesBreakOnce(lines: seq<string>)
    requires forall i :: 0 <= i < |lines| ==> lines[i] != "" && '\n' !in lines[i]
    ensures SingleBreaks(Join(lines, "\n"))
    ensures lines != [] ==> Join(lines, "\n") != "" && Join(lines, "\n")[0] == lines[0][0]
  {
    if |lines| > 1 {
      JoinedLinesBreakOnce(lines[1..]);
      var rest := Join(lines[1..], "\n");
      var all := lines[0] + "\n" + rest;
      forall k | 0 <= k < |lines[0]| ensures all[k] != '\n' {
        assert all[k] == lines[0][k] && lines[0][k] in lines[0];
      }
      forall i | 0 <= i < |all| && all[i] == '\n' ensures i + 1 < |all| && all[i + 1] != '\n' {
        if i > |lines[0]| {
          assert rest[i - |lines[0]| - 1] == '\n';
          assert all[i + 1] == rest[i - |lines[0]|];
        }
      }
    } else if |lines| == 1 {
      forall i | 0 <= i < |lines[0]| ensures lines[0][i] != '\n' {
        assert lines[0][i] in lines[0];
      }
    }
  }

  /** A gate's text: its id, a blank line, and its fields. */
  lemma BlockShape(g: Gate)
    requires LineGate(g)
    ensures Block(g) == g.id + "\n" + ("" + "\n" + Join(FieldLines(g), "\n"))
  {
    hide FieldLines;
    LinesOfGate(g);
    var lines := [g.id, ""] + FieldLines(g);
    assert lines[1..] == [""] + FieldLines(g);
    assert lines[1..][1..] == FieldLines(g);
    assert Join(lines[1..], "\n") == "" + "\n" + Join(FieldLines(g), "\n");
  }

  /** The separator between gates never starts inside a gate. */
  lemma BlockIsUnbroken(g: Gate)
    requires LineGate(g)
    ensures NoneStartsIn(Block(g), BETWEEN)
    ensures Block(g) != "" && !IsSpace(Block(g)[|Block(g)| - 1])
  {
    hide IsSpace, FieldLines, Join;
    var fields := Join(FieldLines(g), "\n");
    BlockShape(g);
    LinesOfGate(g);
    JoinedLinesBreakOnce(FieldLines(g));
    JoinEnds(FieldLines(g), "\n");
    var b := g.id + "\n" + ("" + "\n" + fields);
    var t := b + BETWEEN;
    forall i | 0 <= i < |b| ensures !(BETWEEN <= t[i..]) {
      if i < |g.id| {
        assert t[i] == g.id[i] && g.id[i] in g.id;
      } else if i == |g.id| {
        assert t[i + 2] == fields[0];
      } else if i == |g.id| + 1 {
        assert t[i + 1] == fields[0];
      } else {
        var j := i - |g.id| - 2;
        assert t[i] == fields[j];
        if fields[j] == '\n' {
          assert t[i + 1] == fields[j + 1] != '\n';
        }
      }
      NotAPrefix(t, i);
    }
  }

  /** How to see that the separator does not start at i. */
  lemma NotAPrefix(t: string, i: nat)
    requires i + 2 < |t| && (t[i] != '\n' || t[i + 1] != '\n' || t[i + 2] != '#')
    ensures !(BETWEEN <= t[i..])
  {
    assert t[i..][0] == t[i] && t[i..][1] == t[i + 1] && t[i..][2] == t[i + 2];
  }

  // ------------------------------------------------------------ the whole file

  ghost predicate LineGates(gates: seq<Gate>) {
    forall i :: 0 <= i < |gates| ==> LineGate(gates[i])
  }

  predicate AllReadable(gates: seq<Gate>) {
    forall i :: 0 <= i < |gates| ==> Readable(gates[i])
  }

  lemma BlockHasNoReturn(g: Gate)
    requires LineGate(g)
    ensures '\r' !in Block(g)
  {
    hide FieldLines, Join, IsSpace;
    LinesOfGate(g);
    var lines := [g.id, ""] + FieldLines(g);
    forall p | p in lines ensures '\r' !in p {
      if p in FieldLines(g) {
        var i :| 0 <= i < |FieldLines(g)| && FieldLines(g)[i] == p;
        assert FieldLine(FieldLines(g)[i]);
      }
    }
    JoinChars(lines, "\n", '\r');
  }

  /** The printed file without its final line break: nothing for trimming to take. */
  lemma BodyIsTrimmed(gates: seq<Gate>)
    requires LineGates(gates) && gates != []
    ensures var body := HEADING + Join(Blocks(gates), BETWEEN); Trimmed(body) && '\r' !in body + "\n"
  {
    hide Block, IsSpace, NoneStartsIn, Join, LineGate, BETWEEN;
    var blocks := Blocks(gates);
    forall i | 0 <= i < |blocks|
      ensures blocks[i] != "" && !IsSpace(blocks[i][|blocks[i]| - 1]) && '\r' !in blocks[i]
    {
      BlockIsUnbroken(gates[i]);
      BlockHasNoReturn(gates[i]);
    }
    BetweenHasNoReturn();
    JoinChars(blocks, BETWEEN, '\r');
    JoinEnds(blocks, BETWEEN);
    var joined := Join(blocks, BETWEEN);
    var body := HEADING + joined;
    assert body[|body| - 1] == joined[|joined| - 1];
    assert body[0] == '#' && !IsSpace('#') by {
      HashIsNoSpace();
    }
  }

  lemma BetweenHasNoReturn()
    ensures '\r' !in BETWEEN && '\r' !in HEADING && BETWEEN != ""
  {
  }

  lemma HashIsNoSpace()
    ensures !IsSpace('#')
  {
  }

  /** Main result: reading a printed gate list gives the list back exactly when no
      field value holds a character that `.` does not match; otherwise the file is
      refused. The ids may hold such characters. */
  lemma GatesRoundTrip(gates: seq<Gate>)
    requires LineGates(gates) && UniqueIds(gates)
    ensures Read(Render(gates)) == if AllReadable(gates) then Ok(gates) else Err(Malformed)
  {
    hide LineGate, Readable, Block, Join, SplitOn, ReadBlocks, NoneStartsIn, BETWEEN, Trimmed, DropReturns, Trim;
    if gates == [] {
      EmptyFile();
    } else {
      var blocks := Blocks(gates);
      var body := HEADING + Join(blocks, BETWEEN);
      BodyIsTrimmed(gates);
      DropReturnsKeeps(body + "\n");
      TrimNewline(body);
      forall i | 0 <= i < |blocks| ensures NoneStartsIn(blocks[i], BETWEEN) {
        BlockIsUnbroken(gates[i]);
      }
      BetweenHasNoReturn();
      SplitOnJoin(blocks, BETWEEN);
      assert body[|HEADING|..] == Join(blocks, BETWEEN);
      BlocksBack(gates);
    }
  }

  lemma EmptyFile()
    ensures Trim(DropReturns("")) == ""
  {
  }

  lemma PlainLines(question: string)
    requires question == ['a', LINE_SEPARATOR, 'b']
    ensures IsLine(question) && IsLine("g") && IsLine("y") && IsLine("n") && RequiredLine(question) == Ok(question)
  {
    ReplaceFacts(question, LINE_BREAKS);
    TrimKeeps(question);
  }

  /** The round trip does fail: a gate that park accepts and cannot be read again. */
  lemma SeparatorIsLost()
    ensures var question := ['a', LINE_SEPARATOR, 'b'];
            && RequiredLine(question) == Ok(question)
            && Read(Render([Gate("g", question, "y", "n", None)])) == Err(Malformed)
  {
    var question := ['a', LINE_SEPARATOR, 'b'];
    var g := Gate("g", question, "y", "n", None);
    PlainLines(question);
    assert question[1] in question;
    hide Trim, IsLine, RequiredLine, Render, Read, IsSpace;
    assert !Readable([g][0]);
    GatesRoundTrip([g]);
  }

  // ------------------------------------------------------------ park, resolve

  function FirstWithId(gates: seq<Gate>, id: string): (i: nat)
    ensures i <= |gates| && (forall j :: 0 <= j < i ==> gates[j].id != id) && (i < |gates| ==> gates[i].id == id)
  {
    if gates == [] || gates[0].id == id then 0 else 1 + FirstWithId(gates[1..], id)
  }

  function Find(gates: seq<Gate>, id: string): Option<Gate> {
    var i := FirstWithId(gates, id);
    if i < |gates| then Some(gates[i]) else None
  }

  /** g in the place of the gate with its id, or at the end. */
  function Put(gates: seq<Gate>, g: Gate): seq<Gate> {
    var i := FirstWithId(gates, g.id);
    if i < |gates| then gates[i := g] else gates + [g]
  }

  lemma FindAt(gates: seq<Gate>, i: nat)
    requires UniqueIds(gates) && i < |gates|
    ensures Find(gates, gates[i].id) == Some(gates[i])
  {
  }

  /** Putting a gate keeps ids unique, answers for its own id and changes no other. */
  lemma PutMeans(gates: seq<Gate>, g: Gate)
    requires UniqueIds(gates)
    ensures UniqueIds(Put(gates, g))
    ensures forall id :: Find(Put(gates, g), id) == if id == g.id then Some(g) else Find(gates, id)
    ensures LineGates(gates) && LineGate(g) ==> LineGates(Put(gates, g))
    ensures AllReadable(Put(gates, g)) <==>
      Readable(g) && forall i :: 0 <= i < |gates| && gates[i].id != g.id ==> Readable(gates[i])
  {
    hide LineGate, Readable;
    var after, k := Put(gates, g), FirstWithId(gates, g.id);
    assert after[k] == g;
    forall i | 0 <= i < |gates| ensures after[i].id == gates[i].id {
    }
    forall id ensures Find(after, id) == if id == g.id then Some(g) else Find(gates, id) {
      if id == g.id {
        FindAt(after, k);
      } else {
        var i := FirstWithId(after, id);
        if i < |after| {
          assert gates[i].id == id;
          FindAt(gates, i);
        }
      }
    }
    if AllReadable(after) {
      assert Readable(after[k]);
      forall i | 0 <= i < |gates| && gates[i].id != g.id ensures Readable(gates[i]) {
        assert after[i] == gates[i];
      }
    }
  }

  datatype Command = Park(gate: Gate) | Resolve(id: string, answer: string)

  /** The gate list after a command; a resolve of an unknown id changes nothing. */
  function Apply(gates: seq<Gate>, c: Command): seq<Gate> {
    match c
    case Park(g) => Put(gates, g)
    case Resolve(id, answer) =>
      var found := Find(gates, id);
      if found.None? then gates else Put(gates, found.value.(answer := Some(answer)))
  }

  function ApplyAll(history: seq<Command>): seq<Gate> {
    if history == [] then [] else Apply(ApplyAll(history[..|history| - 1]), history[|history| - 1])
  }

  /** What a command does to the gate with the given id. */
  function Advance(gate: Option<Gate>, c: Command, id: string): Option<Gate> {
    match c
    case Park(g) => if g.id == id then Some(g) else gate
    case Resolve(i, answer) => if i == id && gate.Some? then Some(gate.value.(answer := Some(answer))) else gate
  }

  /** What happened to one gate, told without the other gates. */
  function StoryOf(history: seq<Command>, id: string): Option<Gate> {
    if history == [] then None
    else Advance(StoryOf(history[..|history| - 1], id), history[|history| - 1], id)
  }

  ghost predicate LineCommand(c: Command) {
    match c
    case Park(g) => LineGate(g) && g.answer.None?
    case Resolve(id, answer) => IsLine(answer)
  }

  lemma ApplyMeans(gates: seq<Gate>, c: Command)
    requires UniqueIds(gates) && LineGates(gates) && LineCommand(c)
    ensures UniqueIds(Apply(gates, c)) && LineGates(Apply(gates, c))
    ensures forall id :: Find(Apply(gates, c), id) == Advance(Find(gates, id), c, id)
  {
    hide IsLine;
    match c
    case Park(g) => PutMeans(gates, g);
    case Resolve(id, answer) =>
      var found := Find(gates, id);
      if found.Some? {
        PutMeans(gates, found.value.(answer := Some(answer)));
      }
  }

  /** Main result: after any history of parks and resolves every gate stands as its
      own commands left it, and the file reads back unless a value holds U+2028/9. */
  lemma {:induction false} GatesFollowTheirStories(history: seq<Command>)
    requires forall i :: 0 <= i < |history| ==> LineCommand(history[i])
    ensures UniqueIds(ApplyAll(history)) && LineGates(ApplyAll(history))
    ensures forall id :: Find(ApplyAll(history), id) == StoryOf(history, id)
    ensures Read(Render(ApplyAll(history))) ==
      if AllReadable(ApplyAll(history)) then Ok(ApplyAll(history)) else Err(Malformed)
  {
    hide LineGates, LineCommand, Readable, Find, Advance, Apply, UniqueIds, Read, Render, AllReadable;
    if history != [] {
      var before, c := history[..|history| - 1], history[|history| - 1];
      GatesFollowTheirStories(before);
      ApplyMeans(ApplyAll(before), c);
    } else {
      NoGates();
    }
    GatesRoundTrip(ApplyAll(history));
  }

  lemma NoGates()
    ensures UniqueIds([]) && LineGates([]) && forall id :: Find([], id) == None
  {
  }

  function OpenGates(gates: seq<Gate>): (r: seq<Gate>)
    ensures forall g :: g in r <==> g in gates && g.answer.None?
  {
    if gates == [] then []
    else if gates[0].answer.None? then [gates[0]] + OpenGates(gates[1..]) else OpenGates(gates[1..])
  }

  class GatesFile {
    var text: string
    /** The commands that were carried out, oldest first. */
    ghost var history: seq<Command>

    ghost predicate Valid()
      reads this
    {
      && (forall i :: 0 <= i < |history| ==> LineCommand(history[i]))
      && text == Render(ApplyAll(history))
    }

    constructor ()
      ensures Valid() && history == []
    {
      text := "";
      history := [];
    }

    /** gates.park */
    method Park(id: string, question: string, options: string, fallback: string) returns (r: Result<Gate, StoreError>)
      requires Valid()
      modifies this
      ensures Valid()
      ensures r.Ok? <==>
        && RequiredLine(id).Ok? && RequiredLine(question).Ok? && RequiredLine(options).Ok? && RequiredLine(fallback).Ok?
        && AllReadable(old(ApplyAll(history)))
      ensures r.Ok? ==>
        && r.value == Gate(RequiredLine(id).value, RequiredLine(question).value, RequiredLine(options).value,
                           RequiredLine(fallback).value, None)
        && history == old(history) + [Command.Park(r.value)]
      ensures r.Err? ==> text == old(text) && history == old(history)
      ensures r.Err? ==>
        r.error == if RequiredLine(id).Err? || RequiredLine(question).Err? || RequiredLine(options).Err?
                      || RequiredLine(fallback).Err? then EmptyField else Malformed
    {
      hide RequiredLine, Read, Render, AllReadable, IsLine, Readable;
      if RequiredLine(id).Err? || RequiredLine(question).Err?
        || RequiredLine(options).Err? || RequiredLine(fallback).Err?
      {
        return Err(EmptyField);
      }
      RequiredLineIsLine(id);
      RequiredLineIsLine(question);
      RequiredLineIsLine(options);
      RequiredLineIsLine(fallback);
      var gate := Gate(RequiredLine(id).value, RequiredLine(question).value, RequiredLine(options).value,
                       RequiredLine(fallback).value, None);
      GatesFollowTheirStories(history);
      var gates := ReadGates(text);
      if gates.Err? {
        return Err(Malformed);
      }
      text := Render(Put(gates.value, gate));
      history := history + [Command.Park(gate)];
      assert history[..|history| - 1] == old(history);
      r := Ok(gate);
    }

    /** gates.resolve */
    method Resolve(id: string, answer: string) returns (r: Result<Gate, StoreError>)
      requires Valid()
      modifies this
      ensures Valid()
      ensures r.Ok? <==>
        && RequiredLine(id).Ok? && AllReadable(old(ApplyAll(history)))
        && StoryOf(old(history), RequiredLine(id).value).Some? && RequiredLine(answer).Ok?
      ensures r.Ok? ==>
        && r.value == StoryOf(old(history), RequiredLine(id).value).value.(answer := Some(RequiredLine(answer).value))
        && history == old(history) + [Command.Resolve(RequiredLine(id).value, RequiredLine(answer).value)]
      ensures r.Err? ==> text == old(text) && history == old(history)
      ensures r.Err? ==>
        r.error == if RequiredLine(id).Err? then EmptyField
                   else if !AllReadable(old(ApplyAll(history))) then Malformed
                   else if StoryOf(old(history), RequiredLine(id).value).None? then NotFound
                   else EmptyField
    {
      hide RequiredLine, Read, Render, AllReadable, IsLine, Readable, StoryOf;
      if RequiredLine(id).Err? {
        return Err(EmptyField);
      }
      GatesFollowTheirStories(history);
      var gates := ReadGates(text);
      if gates.Err? {
        return Err(Malformed);
      }
      var found := Find(gates.value, RequiredLine(id).value);
      if found.None? {
        return Err(NotFound);
      }
      if RequiredLine(answer).Err? {
        return Err(EmptyField);
      }
      RequiredLineIsLine(answer);
      var gate := found.value.(answer := Some(RequiredLine(answer).value));
      text := Render(Put(gates.value, gate));
      history := history + [Command.Resolve(RequiredLine(id).value, RequiredLine(answer).value)];
      assert history[..|history| - 1] == old(history);
      r := Ok(gate);
    }

    /** gates.list */
    method List() returns (r: Result<seq<Gate>, StoreError>)
      requires Valid()
      ensures if AllReadable(ApplyAll(history)) then r.Ok? else r == Err(Malformed)
      ensures r.Ok? ==> r.value == OpenGates(ApplyAll(history))
      ensures r.Ok? ==> forall g :: g in r.value <==> g.answer.None? && StoryOf(history, g.id) == Some(g)
    {
      hide Read, Render, AllReadable, Readable, StoryOf;
      GatesFollowTheirStories(history);
      var gates := ReadGates(text);
      if gates.Err? {
        return Err(gates.error);
      }
      r := Ok(OpenGates(gates.value));
      forall g ensures g in gates.value <==> Find(gates.value, g.id) == Some(g) {
        if g in gates.value {
          var i :| 0 <= i < |gates.value| && gates.value[i] == g;
          FindAt(gates.value, i);
        }
      }
    }
  }
}
