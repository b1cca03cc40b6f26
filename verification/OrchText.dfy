/** Text pieces of the plain-file orchestration store (orch/store.ts): splitting and
    joining, cell and line cleaning, decimal numbers. */
module OrchText {
  import opened Common

  // ------------------------------------------------------ split and join

  /** text.split(c) for a one-character separator. */
  function Split(s: string, c: char): (r: seq<string>)
    ensures |r| >= 1
  {
    if s == "" then [""]
    else
      var rest := Split(s[1..], c);
      if s[0] == c then [""] + rest else [[s[0]] + rest[0]] + rest[1..]
  }

  /** parts.join(sep) */
  function Join(parts: seq<string>, sep: string): string {
    if parts == [] then ""
    else if |parts| == 1 then parts[0]
    else parts[0] + sep + Join(parts[1..], sep)
  }

  lemma {:induction false} SplitPlain(s: string, c: char)
    requires c !in s
    ensures Split(s, c) == [s]
  {
    if s != "" {
      SplitPlain(s[1..], c);
      assert s == [s[0]] + s[1..];
    }
  }

  lemma {:induction false} SplitAt(p: string, c: char, rest: string)
    requires c !in p
    ensures Split(p + [c] + rest, c) == [p] + Split(rest, c)
  {
    if p == "" {
      assert (p + [c] + rest)[1..] == rest;
    } else {
      SplitAt(p[1..], c, rest);
      assert (p + [c] + rest)[1..] == p[1..] + [c] + rest;
      assert p == [p[0]] + p[1..];
    }
  }

  /** Splitting undoes joining when no part contains the separator. */
  lemma {:induction false} SplitJoin(parts: seq<string>, c: char)
    requires parts != [] && forall p :: p in parts ==> c !in p
    ensures Split(Join(parts, [c]), c) == parts
  {
    if |parts| == 1 {
      SplitPlain(parts[0], c);
      assert parts == [parts[0]];
    } else {
      SplitJoin(parts[1..], c);
      SplitAt(parts[0], c, Join(parts[1..], [c]));
      assert parts == [parts[0]] + parts[1..];
    }
  }

  lemma {:induction false} JoinChars(parts: seq<string>, sep: string, x: char)
    requires x !in sep && forall p :: p in parts ==> x !in p
    ensures x !in Join(parts, sep)
  {
    if |parts| > 1 {
      JoinChars(parts[1..], sep, x);
    }
  }

  lemma {:induction false} JoinFinalBreak(lines: seq<string>)
    requires lines != []
    ensures Join(lines + [""], "\n") == Join(lines, "\n") + "\n"
  {
    if |lines| > 1 {
      JoinFinalBreak(lines[1..]);
      assert (lines + [""])[1..] == lines[1..] + [""];
    } else {
      assert lines + [""] == [lines[0], ""];
    }
  }

  lemma {:induction false} JoinEnds(parts: seq<string>, sep: string)
    requires parts != [] && parts[|parts| - 1] != ""
    ensures var j := Join(parts, sep); j != "" && j[|j| - 1] == parts[|parts| - 1][|parts[|parts| - 1]| - 1]
  {
    if |parts| > 1 {
      JoinEnds(parts[1..], sep);
    }
  }

  // ------------------------------------------------------------ whitespace

  const LINE_SEPARATOR: char := '\U{2028}'
  const PARAGRAPH_SEPARATOR: char := '\U{2029}'

  /** The characters that String.prototype.trim removes. */
  predicate IsSpace(c: char) {
    || c == '\t' || c == '\n' || c == '\U{000B}' || c == '\U{000C}' || c == '\r' || c == ' ' || c == '\U{00A0}'
    || c == '\U{1680}' || ('\U{2000}' <= c <= '\U{200A}') || c == LINE_SEPARATOR || c == PARAGRAPH_SEPARATOR
    || c == '\U{202F}' || c == '\U{205F}' || c == '\U{3000}' || c == '\U{FEFF}'
  }

  /** Characters that `.` does not match in a regular expression. */
  predicate IsLineTerminator(c: char) {
    c == '\n' || c == '\r' || c == LINE_SEPARATOR || c == PARAGRAPH_SEPARATOR
  }

  predicate NoTerminator(s: string) {
    forall c :: c in s ==> !IsLineTerminator(c)
  }

  function TrimStart(s: string): string {
    if s != "" && IsSpace(s[0]) then TrimStart(s[1..]) else s
  }

  function TrimEnd(s: string): string {
    if s != "" && IsSpace(s[|s| - 1]) then TrimEnd(s[..|s| - 1]) else s
  }

  function Trim(s: string): string {
    TrimEnd(TrimStart(s))
  }

  /** Neither end is white space. */
  predicate Trimmed(s: string) {
    s != "" ==> !IsSpace(s[0]) && !IsSpace(s[|s| - 1])
  }

  lemma {:induction false} TrimEndFacts(s: string)
    ensures TrimEnd(s) <= s
    ensures TrimEnd(s) != "" ==> !IsSpace(TrimEnd(s)[|TrimEnd(s)| - 1])
  {
    if s != "" && IsSpace(s[|s| - 1]) {
      TrimEndFacts(s[..|s| - 1]);
    }
  }

  lemma {:induction false} TrimStartFacts(s: string)
    ensures TrimStart(s) != "" ==> !IsSpace(TrimStart(s)[0])
    ensures forall c :: c in TrimStart(s) ==> c in s
  {
    if s != "" && IsSpace(s[0]) {
      TrimStartFacts(s[1..]);
    }
  }

  lemma TrimIsTrimmed(s: string)
    ensures Trimmed(Trim(s))
    ensures forall c :: c in Trim(s) ==> c in s
  {
    TrimStartFacts(s);
    TrimEndFacts(TrimStart(s));
  }

  /** Trimming takes white space off both ends and nothing else. */
  lemma TrimMeans(s: string) returns (i: nat, j: nat)
    ensures i <= j <= |s| && Trim(s) == s[i..j]
    ensures forall k :: 0 <= k < i || j <= k < |s| ==> IsSpace(s[k])
    ensures i < j ==> !IsSpace(s[i]) && !IsSpace(s[j - 1])
  {
    i := TrimStartMeans(s);
    var rest := s[i..];
    var n := TrimEndMeans(rest);
    j := i + n;
    TrimIsTrimmed(s);
    forall k | j <= k < |s| ensures IsSpace(s[k]) {
      assert s[k] == rest[k - i];
    }
  }

  lemma {:induction false} TrimStartMeans(s: string) returns (i: nat)
    ensures i <= |s| && TrimStart(s) == s[i..]
    ensures forall k :: 0 <= k < i ==> IsSpace(s[k])
  {
    i := 0;
    if s != "" && IsSpace(s[0]) {
      var n := TrimStartMeans(s[1..]);
      i := n + 1;
      forall k | 0 <= k < i ensures IsSpace(s[k]) {
        assert k > 0 ==> s[1..][k - 1] == s[k];
      }
    }
  }

  lemma {:induction false} TrimEndMeans(s: string) returns (n: nat)
    ensures n <= |s| && TrimEnd(s) == s[..n]
    ensures forall k :: n <= k < |s| ==> IsSpace(s[k])
  {
    n := |s|;
    if s != "" && IsSpace(s[|s| - 1]) {
      n := TrimEndMeans(s[..|s| - 1]);
    }
  }

  /** Nothing is left exactly when there is only white space. */
  lemma TrimIsEmpty(s: string)
    ensures Trim(s) == "" <==> forall c :: c in s ==> IsSpace(c)
  {
    var i, j := TrimMeans(s);
    if i < j {
      assert s[i] in s;
    }
  }

  lemma TrimKeeps(s: string)
    requires Trimmed(s)
    ensures Trim(s) == s
  {
  }

  /** A final line break is all that trimming takes from such a text. */
  lemma TrimNewline(s: string)
    requires s != "" && Trimmed(s)
    ensures Trim(s + "\n") == s
  {
    var longer := s + "\n";
    assert longer[0] == s[0] && longer[|s|] == '\n' && longer[..|s|] == s;
    assert TrimStart(longer) == longer;
    assert TrimEnd(longer) == TrimEnd(s);
  }

  // --------------------------------------------------------------- cleaning

  function Replace(s: string, bad: set<char>): string {
    if s == "" then ""
    else [if s[0] in bad then ' ' else s[0]] + Replace(s[1..], bad)
  }

  lemma {:induction false} ReplaceFacts(s: string, bad: set<char>)
    ensures |Replace(s, bad)| == |s|
    ensures ' ' !in bad ==> forall c :: c in Replace(s, bad) ==> c !in bad
    ensures (forall c :: c in s ==> c !in bad) ==> Replace(s, bad) == s
  {
    if s != "" {
      ReplaceFacts(s[1..], bad);
      assert s == [s[0]] + s[1..];
    }
  }

  /** Every character stays in its place, the bad ones as spaces. */
  lemma {:induction false} ReplaceAt(s: string, bad: set<char>)
    ensures |Replace(s, bad)| == |s|
    ensures forall i :: 0 <= i < |s| ==> Replace(s, bad)[i] == if s[i] in bad then ' ' else s[i]
  {
    if s != "" {
      ReplaceAt(s[1..], bad);
    }
  }

  const CELL_BREAKS: set<char> := {'\t', '\n', '\r'}
  const FORMULA_STARTS: set<char> := {'=', '+', '-', '@'}

  /** cleanCell: no cell or line break, and no formula start. */
  function CleanCell(value: string): string {
    var cleaned := Replace(value, CELL_BREAKS);
    if cleaned != "" && cleaned[0] in FORMULA_STARTS then "'" + cleaned else cleaned
  }

  predicate IsClean(cell: string) {
    (forall c :: c in cell ==> c !in CELL_BREAKS) && (cell != "" ==> cell[0] !in FORMULA_STARTS)
  }

  lemma CleanCellIsClean(value: string)
    ensures IsClean(CleanCell(value))
  {
    ReplaceFacts(value, CELL_BREAKS);
  }

  lemma CleanCellKeeps(cell: string)
    requires IsClean(cell)
    ensures CleanCell(cell) == cell
  {
    ReplaceFacts(cell, CELL_BREAKS);
  }

  /** Cleaning puts a quote before a formula start, turns each cell or line break into a
      space, and leaves everything else in its place. */
  lemma CleanCellMeans(value: string)
    ensures var mark := if value != "" && value[0] in {'=', '+', '-', '@'} then 1 else 0;
      && |CleanCell(value)| == mark + |value|
      && (mark == 1 ==> CleanCell(value)[0] == '\'')
      && forall i :: 0 <= i < |value| ==>
           CleanCell(value)[mark + i] == if value[i] in {'\t', '\n', '\r'} then ' ' else value[i]
  {
    ReplaceAt(value, CELL_BREAKS);
  }

  /** Cleaning a cleaned cell changes nothing. */
  lemma CleanCellIdempotent(value: string)
    ensures CleanCell(CleanCell(value)) == CleanCell(value)
  {
    CleanCellIsClean(value);
    CleanCellKeeps(CleanCell(value));
  }

  datatype StoreError =
    | EmptyField | BadHeader | BadRow | AlreadyExists | NotFound | Malformed | NotPositive | BadVerdict

  /** requiredCell */
  function RequiredCell(value: string): Result<string, StoreError> {
    if Trim(CleanCell(value)) == "" then Err(EmptyField) else Ok(CleanCell(value))
  }

  /** A cell is refused exactly when its text is empty or white space only. */
  lemma RequiredCellRefuses(value: string)
    ensures RequiredCell(value) == Err(EmptyField) <==> forall c :: c in value ==> IsSpace(c)
    ensures RequiredCell(value).Ok? ==> RequiredCell(value).value == CleanCell(value)
  {
    TrimIsEmpty(CleanCell(value));
    CleanCellMeans(value);
    var cell, mark := CleanCell(value), |CleanCell(value)| - |value|;
    if c :| c in value && !IsSpace(c) {
      var i :| 0 <= i < |value| && value[i] == c;
      assert cell[mark + i] in cell;
    }
    if c :| c in cell && !IsSpace(c) {
      var i :| 0 <= i < |cell| && cell[i] == c;
      assert value[if i < mark then 0 else i - mark] in value;
    }
  }

  const LINE_BREAKS: set<char> := {'\n', '\r'}

  /** requiredLine */
  function RequiredLine(value: string): Result<string, StoreError> {
    var cleaned := Trim(Replace(value, LINE_BREAKS));
    if cleaned == "" then Err(EmptyField) else Ok(cleaned)
  }

  /** A text as requiredLine leaves it. */
  predicate IsLine(s: string) {
    s != "" && Trimmed(s) && '\n' !in s && '\r' !in s
  }

  lemma RequiredLineIsLine(value: string)
    ensures RequiredLine(value).Ok? ==> IsLine(RequiredLine(value).value)
  {
    ReplaceFacts(value, LINE_BREAKS);
    TrimIsTrimmed(Replace(value, LINE_BREAKS));
  }

  /** A line is refused exactly when its text is empty or white space only; otherwise it
      is the text without the white space around it, each line break as a space. */
  lemma RequiredLineMeans(value: string)
    ensures RequiredLine(value) == Err(EmptyField) <==> forall c :: c in value ==> IsSpace(c)
    ensures RequiredLine(value).Ok? ==>
      exists i: nat, j: nat :: i <= j <= |value| && IsPart(RequiredLine(value).value, value, i, j)
  {
    hide IsSpace, IsPart;
    var broken := Replace(value, LINE_BREAKS);
    TrimIsEmpty(broken);
    BreaksStaySpace(value);
    TrimmedIsPart(value);
  }

  lemma BreaksStaySpace(value: string)
    ensures (forall c :: c in Replace(value, LINE_BREAKS) ==> IsSpace(c)) <==> forall c :: c in value ==> IsSpace(c)
  {
    var broken := Replace(value, LINE_BREAKS);
    ReplaceAt(value, LINE_BREAKS);
    if c :| c in value && !IsSpace(c) {
      var i :| 0 <= i < |value| && value[i] == c;
      assert broken[i] in broken;
    }
    if c :| c in broken && !IsSpace(c) {
      var i :| 0 <= i < |broken| && broken[i] == c;
      assert value[i] in value;
    }
  }

  lemma BreaksAreSpace()
    ensures forall c :: c in LINE_BREAKS ==> IsSpace(c)
  {
  }

  lemma TrimmedIsPart(value: string)
    ensures exists i: nat, j: nat :: i <= j <= |value| && IsPart(Trim(Replace(value, LINE_BREAKS)), value, i, j)
  {
    hide Trim, Replace, IsSpace;
    var broken := Replace(value, LINE_BREAKS);
    ReplaceAt(value, LINE_BREAKS);
    BreaksAreSpace();
    var i, j := TrimMeans(broken);
    assert IsPart(Trim(broken), value, i, j);
  }

  /** line is value[i..j] with spaces for line breaks, and the rest is white space. */
  ghost predicate IsPart(line: string, value: string, i: nat, j: nat)
    requires i <= j <= |value|
  {
    && |line| == j - i
    && (forall k :: 0 <= k < |line| ==> line[k] == if value[i + k] in {'\n', '\r'} then ' ' else value[i + k])
    && (forall k :: 0 <= k < i || j <= k < |value| ==> IsSpace(value[k]))
  }

  /** text.replace(/\\r/g, "") */
  function DropReturns(s: string): string {
    if s == "" then ""
    else if s[0] == '\r' then DropReturns(s[1..]) else [s[0]] + DropReturns(s[1..])
  }

  lemma {:induction false} DropReturnsKeeps(s: string)
    requires '\r' !in s
    ensures DropReturns(s) == s
  {
    if s != "" {
      DropReturnsKeeps(s[1..]);
      assert s == [s[0]] + s[1..];
    }
  }

  function NonEmptyLines(lines: seq<string>): seq<string> {
    if lines == [] then []
    else if lines[0] == "" then NonEmptyLines(lines[1..]) else [lines[0]] + NonEmptyLines(lines[1..])
  }

  lemma {:induction false} NonEmptyKeeps(lines: seq<string>)
    requires forall i :: 0 <= i < |lines| ==> lines[i] != ""
    ensures NonEmptyLines(lines) == lines
  {
    if lines != [] {
      NonEmptyKeeps(lines[1..]);
      assert lines == [lines[0]] + lines[1..];
    }
  }

  lemma {:induction false} NonEmptyAppend(a: seq<string>, b: seq<string>)
    ensures NonEmptyLines(a + b) == NonEmptyLines(a) + NonEmptyLines(b)
  {
    if a == [] {
      assert a + b == b;
    } else {
      var all, kept := a + b, if a[0] == "" then [] else [a[0]];
      assert all[0] == a[0] && all[1..] == a[1..] + b;
      NonEmptyFirst(all);
      NonEmptyFirst(a);
      hide NonEmptyLines;
      NonEmptyAppend(a[1..], b);
      assert kept + (NonEmptyLines(a[1..]) + NonEmptyLines(b)) == kept + NonEmptyLines(a[1..]) + NonEmptyLines(b);
    }
  }

  lemma NonEmptyFirst(lines: seq<string>)
    requires lines != []
    ensures NonEmptyLines(lines) == (if lines[0] == "" then [] else [lines[0]]) + NonEmptyLines(lines[1..])
  {
  }

  lemma FinalBreakIsDropped(lines: seq<string>)
    requires forall i :: 0 <= i < |lines| ==> lines[i] != ""
    ensures NonEmptyLines(lines + [""]) == lines
  {
    NonEmptyAppend(lines, [""]);
    NonEmptyKeeps(lines);
    assert NonEmptyLines([""]) == [];
    assert lines + [] == lines;
  }

  // ------------------------------------------------------------- decimals

  function Digit(d: nat): char
    requires d < 10
  {
    '0' + (d as char)
  }

  /** String(n) */
  function Decimal(n: nat): (s: string)
    ensures |s| >= 1
  {
    if n < 10 then [Digit(n)] else Decimal(n / 10) + [Digit(n % 10)]
  }

  predicate IsDigit(c: char) {
    '0' <= c <= '9'
  }

  function DigitValue(c: char): nat
    requires IsDigit(c)
  {
    (c as int) - ('0' as int)
  }

  /** Number(s) for a text of digits. */
  function ParseDecimal(s: string): nat
    requires forall c :: c in s ==> IsDigit(c)
  {
    if s == "" then 0
    else
      assert s[|s| - 1] in s;
      ParseDecimal(s[..|s| - 1]) * 10 + DigitValue(s[|s| - 1])
  }

  /** Printing and reading a number are inverse, and a positive one starts with no zero. */
  lemma {:induction false} DecimalRoundTrip(n: nat)
    ensures forall c :: c in Decimal(n) ==> IsDigit(c)
    ensures ParseDecimal(Decimal(n)) == n
    ensures n > 0 ==> Decimal(n)[0] != '0'
  {
    if n >= 10 {
      DecimalRoundTrip(n / 10);
      var front := Decimal(n / 10);
      assert Decimal(n)[..|front|] == front;
    } else {
      assert Decimal(n)[..0] == "";
    }
  }

  /** Different numbers print differently. */
  lemma DecimalInjective(m: nat, n: nat)
    requires Decimal(m) == Decimal(n)
    ensures m == n
  {
    DecimalRoundTrip(m);
    DecimalRoundTrip(n);
  }
}
