/** The comma-separated text the reports print and the importer parses. */
module Csv {
  import opened Basics

  // ---------------------------------------------------------------------------
  // Printing
  // ---------------------------------------------------------------------------

  predicate StartsFormula(c: char) {
    c == '=' || c == '+' || c == '-' || c == '@'
  }

  /** Control characters and spaces, then a character a spreadsheet takes for a formula. */
  predicate LooksLikeFormula(value: string) {
    value != "" && (StartsFormula(value[0]) || (value[0] <= ' ' && LooksLikeFormula(value[1..])))
  }

  function Guarded(value: string): string {
    if LooksLikeFormula(value) then "'" + value else value
  }

  function Doubled(s: string): string {
    if s == "" then "" else (if s[0] == '"' then "\"\"" else [s[0]]) + Doubled(s[1..])
  }

  function CsvCell(value: string): string {
    "\"" + Doubled(Guarded(value)) + "\""
  }

  function Joined(parts: seq<string>, separator: string): string {
    if parts == [] then "" else if |parts| == 1 then parts[0] else parts[0] + separator + Joined(parts[1..], separator)
  }

  function PrintRow(row: seq<string>): string {
    Joined(seq(|row|, i requires 0 <= i < |row| => CsvCell(row[i])), ",")
  }

  function PrintCsv(rows: seq<seq<string>>): string {
    Joined(seq(|rows|, i requires 0 <= i < |rows| => PrintRow(rows[i])), "\r\n")
  }

  // ---------------------------------------------------------------------------
  // Parsing
  // ---------------------------------------------------------------------------

  /** The characters that trimming removes. */
  predicate IsSpace(c: char) {
    || '\t' <= c <= '\r' || c == ' ' || c == '\U{00A0}' || c == '\U{1680}' || '\U{2000}' <= c <= '\U{200A}'
    || c == '\U{2028}' || c == '\U{2029}' || c == '\U{202F}' || c == '\U{205F}' || c == '\U{3000}' || c == '\U{FEFF}'
  }

  predicate Blank(cell: string) {
    forall c <- cell :: IsSpace(c)
  }

  predicate BlankRow(row: seq<string>) {
    forall cell <- row :: Blank(cell)
  }

  datatype Scan = Scan(rows: seq<seq<string>>, row: seq<string>, cell: string, quoted: bool)

  const START := Scan([], [], "", false)

  function EndCell(s: Scan): Scan {
    s.(row := s.row + [s.cell], cell := "")
  }

  /** A row of blank cells is dropped. */
  function EndRow(s: Scan): Scan {
    var row := s.row + [s.cell];
    s.(rows := if BlankRow(row) then s.rows else s.rows + [row], row := [], cell := "")
  }

  function ScanText(s: Scan, text: string): Scan
    decreases |text|
  {
    if text == "" then s
    else
      var c := text[0];
      var next := if |text| > 1 then text[1] else ' ';
      if c == '"' then
        if s.quoted && next == '"' then ScanText(s.(cell := s.cell + "\""), text[2..])
        else ScanText(s.(quoted := !s.quoted), text[1..])
      else if c == ',' && !s.quoted then ScanText(EndCell(s), text[1..])
      else if (c == '\n' || c == '\r') && !s.quoted then
        ScanText(EndRow(s), if c == '\r' && next == '\n' then text[2..] else text[1..])
      else ScanText(s.(cell := s.cell + [c]), text[1..])
  }

  datatype ParseError = UnterminatedQuote

  function Parsed(text: string): Result<seq<seq<string>>, ParseError> {
    var s := ScanText(START, text);
    if s.quoted then Err(UnterminatedQuote) else Ok(EndRow(s).rows)
  }

  /** The character loop of the importer. */
  method ParseCsv(text: string) returns (r: Result<seq<seq<string>>, ParseError>)
    ensures r == Parsed(text)
  {
    hide BlankRow;
    var rows: seq<seq<string>>, row: seq<string>, cell, quoted := [], [], "", false;
    var index := 0;
    assert text[0..] == text;
    while index < |text|
      invariant 0 <= index <= |text|
      invariant ScanText(Scan(rows, row, cell, quoted), text[index..]) == ScanText(START, text)
    {
      var character := text[index];
      assert text[index..][0] == character;
      assert text[index..][1..] == text[index + 1..];
      assert index + 1 < |text| ==> text[index..][1] == text[index + 1] && text[index..][2..] == text[index + 2..];
      if character == '"' {
        if quoted && index + 1 < |text| && text[index + 1] == '"' {
          cell := cell + "\"";
          index := index + 1;
        } else {
          quoted := !quoted;
        }
      } else if character == ',' && !quoted {
        row := row + [cell];
        cell := "";
      } else if (character == '\n' || character == '\r') && !quoted {
        if character == '\r' && index + 1 < |text| && text[index + 1] == '\n' { index := index + 1; }
        row := row + [cell];
        if !BlankRow(row) { rows := rows + [row]; }
        row := [];
        cell := "";
      } else {
        cell := cell + [character];
      }
      index := index + 1;
    }
    if quoted { return Err(UnterminatedQuote); }
    row := row + [cell];
    if !BlankRow(row) { rows := rows + [row]; }
    r := Ok(rows);
  }

  // ---------------------------------------------------------------------------
  // The only error: an odd number of quotes
  // ---------------------------------------------------------------------------

  function Quotes(text: string): nat {
    if text == "" then 0 else (if text[0] == '"' then 1 else 0) + Quotes(text[1..])
  }

  lemma {:induction false} QuotesToggle(s: Scan, text: string)
    ensures ScanText(s, text).quoted == (s.quoted != (Quotes(text) % 2 == 1))
    decreases |text|
  {
    hide EndRow, EndCell, BlankRow;
    if text != "" {
      var c := text[0];
      var next := if |text| > 1 then text[1] else ' ';
      if c == '"' {
        if s.quoted && next == '"' {
          assert text[1..][1..] == text[2..];
          QuotesToggle(s.(cell := s.cell + "\""), text[2..]);
        } else {
          QuotesToggle(s.(quoted := !s.quoted), text[1..]);
        }
      } else if c == ',' && !s.quoted {
        EndingKeepsQuoted(s);
        QuotesToggle(EndCell(s), text[1..]);
      } else if (c == '\n' || c == '\r') && !s.quoted {
        EndingKeepsQuoted(s);
        if c == '\r' && next == '\n' { assert text[1..][1..] == text[2..]; }
        QuotesToggle(EndRow(s), if c == '\r' && next == '\n' then text[2..] else text[1..]);
      } else {
        QuotesToggle(s.(cell := s.cell + [c]), text[1..]);
      }
    }
  }

  lemma EndingKeepsQuoted(s: Scan)
    ensures EndCell(s).quoted == s.quoted && EndRow(s).quoted == s.quoted
  {
  }

  lemma FailsIffQuotesAreOdd(text: string)
    ensures Parsed(text).Err? <==> Quotes(text) % 2 == 1
  {
    QuotesToggle(START, text);
  }

  // ---------------------------------------------------------------------------
  // Files as section 2 of RFC 4180 describes them
  // ---------------------------------------------------------------------------

  datatype Field = Quoted(content: string) | Plain(content: string)

  datatype End = Crlf | Lf | Cr

  predicate PlainChar(c: char) {
    c != '"' && c != ',' && c != '\r' && c != '\n'
  }

  /** An unquoted field may not contain quotes, commas or line breaks. */
  predicate FieldOk(f: Field) {
    f.Plain? ==> forall c <- f.content :: PlainChar(c)
  }

  function FieldText(f: Field): string {
    if f.Plain? then f.content else "\"" + Doubled(f.content) + "\""
  }

  function LineText(fields: seq<Field>): string
    requires fields != []
  {
    if |fields| == 1 then FieldText(fields[0]) else FieldText(fields[0]) + "," + LineText(fields[1..])
  }

  function EndText(e: End): string {
    match e
    case Crlf => "\r\n"
    case Lf => "\n"
    case Cr => "\r"
  }

  /** A record has at least one field. */
  predicate LineOk(line: seq<Field>) {
    line != [] && forall f <- line :: FieldOk(f)
  }

  /** Only the last record may lack its line break. */
  predicate FileOk(lines: seq<seq<Field>>, ends: seq<End>) {
    && (|ends| == |lines| || |ends| + 1 == |lines|)
    && forall i :: 0 <= i < |lines| ==> LineOk(lines[i])
  }

  function FileText(lines: seq<seq<Field>>, ends: seq<End>): string
    requires FileOk(lines, ends)
  {
    if lines == [] then ""
    else if ends == [] then LineText(lines[0])
    else LineText(lines[0]) + (EndText(ends[0]) + FileText(lines[1..], ends[1..]))
  }

  function Contents(line: seq<Field>): seq<string> {
    seq(|line|, i requires 0 <= i < |line| => line[i].content)
  }

  function KeptRow(line: seq<Field>): seq<seq<string>> {
    if BlankRow(Contents(line)) then [] else [Contents(line)]
  }

  /** The records with a non-blank field. */
  function Records(lines: seq<seq<Field>>): seq<seq<string>> {
    if lines == [] then []
    else KeptRow(lines[0]) + Records(lines[1..])
  }

  lemma {:induction false} ScanPlain(s: Scan, content: string, rest: string)
    requires !s.quoted && forall c <- content :: PlainChar(c)
    ensures ScanText(s, content + rest) == ScanText(s.(cell := s.cell + content), rest)
    decreases |content|
  {
    hide EndRow, EndCell;
    if content == "" {
      assert content + rest == rest && s.cell + content == s.cell;
    } else {
      assert PlainChar(content[0]);
      assert (content + rest)[1..] == content[1..] + rest;
      ScanPlain(s.(cell := s.cell + [content[0]]), content[1..], rest);
      assert s.cell + [content[0]] + content[1..] == s.cell + content;
    }
  }

  lemma ScanQuotedChar(s: Scan, c: char, rest: string)
    requires s.quoted
    ensures ScanText(s, (if c == '"' then "\"\"" else [c]) + rest) == ScanText(s.(cell := s.cell + [c]), rest)
  {
  }

  lemma ScanClosingQuote(s: Scan, rest: string)
    requires s.quoted && (rest == "" || rest[0] != '"')
    ensures ScanText(s, "\"" + rest) == ScanText(s.(quoted := false), rest)
  {
  }

  lemma {:induction false} ScanDoubled(s: Scan, content: string, rest: string)
    requires s.quoted && (rest == "" || rest[0] != '"')
    ensures ScanText(s, Doubled(content) + ("\"" + rest)) == ScanText(s.(cell := s.cell + content, quoted := false), rest)
    decreases |content|
  {
    hide ScanText;
    var tail := "\"" + rest;
    if content == "" {
      assert Doubled(content) + tail == tail && s.cell + content == s.cell;
      ScanClosingQuote(s, rest);
    } else {
      var c := content[0];
      assert Doubled(content) + tail == (if c == '"' then "\"\"" else [c]) + (Doubled(content[1..]) + tail);
      ScanQuotedChar(s, c, Doubled(content[1..]) + tail);
      ScanDoubled(s.(cell := s.cell + [c]), content[1..], rest);
      assert s.cell + [c] + content[1..] == s.cell + content;
    }
  }

  lemma ScanField(s: Scan, f: Field, rest: string)
    requires !s.quoted && s.cell == "" && FieldOk(f) && (rest == "" || rest[0] != '"')
    ensures ScanText(s, FieldText(f) + rest) == ScanText(s.(cell := f.content), rest)
  {
    hide EndRow, EndCell, Doubled;
    if f.Plain? {
      ScanPlain(s, f.content, rest);
      assert "" + f.content == f.content;
    } else {
      var text := FieldText(f) + rest;
      assert text[0] == '"' && text[1..] == Doubled(f.content) + ("\"" + rest);
      ScanDoubled(s.(quoted := true), f.content, rest);
      assert "" + f.content == f.content;
    }
  }

  lemma ScanComma(s: Scan, rest: string)
    requires !s.quoted
    ensures ScanText(s, "," + rest) == ScanText(EndCell(s), rest)
  {
  }

  lemma {:induction false} ScanLine(s: Scan, line: seq<Field>, rest: string)
    requires !s.quoted && s.cell == "" && LineOk(line)
    requires rest == "" || rest[0] == '\r' || rest[0] == '\n'
    ensures ScanText(s, LineText(line) + rest) ==
      ScanText(s.(row := s.row + Contents(line)[..|line| - 1], cell := line[|line| - 1].content), rest)
    decreases |line|
  {
    hide ScanText, FieldText;
    var f := line[0];
    if |line| == 1 {
      ScanField(s, f, rest);
      assert s.row + Contents(line)[..0] == s.row;
    } else {
      var after := "," + (LineText(line[1..]) + rest);
      assert LineText(line) + rest == FieldText(f) + after;
      ScanField(s, f, after);
      ScanComma(s.(cell := f.content), LineText(line[1..]) + rest);
      var s1 := EndCell(s.(cell := f.content));
      ScanLine(s1, line[1..], rest);
      assert Contents(line)[..|line| - 1] == [f.content] + Contents(line[1..])[..|line| - 2];
      assert s1.row + Contents(line[1..])[..|line| - 2] == s.row + Contents(line)[..|line| - 1];
    }
  }

  /** A line feed where a row has just ended reads an empty row and drops it, so a carriage
      return need not have looked ahead. */
  lemma LineFeedAfterRowIsIdle(s: Scan, rest: string)
    requires s.row == [] && s.cell == "" && !s.quoted
    ensures ScanText(s, "\n" + rest) == ScanText(s, rest)
  {
  }

  lemma ScanEnd(s: Scan, e: End, rest: string)
    requires !s.quoted
    ensures ScanText(s, EndText(e) + rest) == ScanText(EndRow(s), rest)
  {
    hide BlankRow;
    var text := EndText(e) + rest;
    if e.Crlf? {
      assert text[1] == '\n' && text[2..] == rest;
    } else {
      assert text[1..] == rest;
      if e.Cr? && |rest| > 0 && rest[0] == '\n' {
        assert text[2..] == rest[1..] && rest == "\n" + rest[1..];
        LineFeedAfterRowIsIdle(EndRow(s), rest[1..]);
      }
    }
  }

  lemma ContentsSplit(line: seq<Field>)
    requires line != []
    ensures Contents(line)[..|line| - 1] + [line[|line| - 1].content] == Contents(line)
  {
  }

  lemma EndOfLine(s: Scan, line: seq<Field>)
    requires !s.quoted && s.row == [] && s.cell == "" && line != []
    ensures EndRow(s.(row := s.row + Contents(line)[..|line| - 1], cell := line[|line| - 1].content))
      == s.(rows := s.rows + KeptRow(line))
  {
    hide BlankRow;
    ContentsSplit(line);
    assert [] + Contents(line)[..|line| - 1] == Contents(line)[..|line| - 1];
    assert s.rows + [] == s.rows;
  }

  lemma ScanLastLine(s: Scan, line: seq<Field>)
    requires !s.quoted && s.row == [] && s.cell == "" && LineOk(line)
    ensures !ScanText(s, LineText(line)).quoted
    ensures EndRow(ScanText(s, LineText(line))).rows == s.rows + KeptRow(line)
  {
    hide ScanText, EndRow, KeptRow, LineText, FieldOk;
    assert LineText(line) + "" == LineText(line);
    ScanLine(s, line, "");
    ScanNothing(s.(row := s.row + Contents(line)[..|line| - 1], cell := line[|line| - 1].content));
    EndOfLine(s, line);
  }

  lemma ScanTerminatedLine(s: Scan, line: seq<Field>, e: End, rest: string)
    requires !s.quoted && s.row == [] && s.cell == "" && LineOk(line)
    ensures ScanText(s, LineText(line) + (EndText(e) + rest)) == ScanText(s.(rows := s.rows + KeptRow(line)), rest)
  {
    hide ScanText, EndRow, KeptRow, LineText, FieldOk;
    ScanLine(s, line, EndText(e) + rest);
    ScanEnd(s.(row := s.row + Contents(line)[..|line| - 1], cell := line[|line| - 1].content), e, rest);
    EndOfLine(s, line);
  }

  lemma {:induction false} ScanFile(s: Scan, lines: seq<seq<Field>>, ends: seq<End>)
    requires FileOk(lines, ends) && !s.quoted && s.row == [] && s.cell == ""
    ensures !ScanText(s, FileText(lines, ends)).quoted
    ensures EndRow(ScanText(s, FileText(lines, ends))).rows == s.rows + Records(lines)
    decreases |lines|
  {
    hide KeptRow, LineText, EndRow, ScanText, EndText, FileText, FileOk, LineOk;
    if lines == [] {
      EmptyFileIsEmpty(ends);
      ScanNothing(s);
      EndOfNothing(s);
    } else if ends == [] {
      OneLineIsLast(lines);
      ScanLastLine(s, lines[0]);
    } else {
      RestIsOk(lines, ends);
      ScanTerminatedLine(s, lines[0], ends[0], FileText(lines[1..], ends[1..]));
      ScanFile(s.(rows := s.rows + KeptRow(lines[0])), lines[1..], ends[1..]);
      assert s.rows + KeptRow(lines[0]) + Records(lines[1..]) == s.rows + Records(lines);
    }
  }

  lemma RestIsOk(lines: seq<seq<Field>>, ends: seq<End>)
    requires FileOk(lines, ends) && lines != [] && ends != []
    ensures LineOk(lines[0]) && FileOk(lines[1..], ends[1..])
    ensures FileText(lines, ends) == LineText(lines[0]) + (EndText(ends[0]) + FileText(lines[1..], ends[1..]))
  {
  }

  lemma EmptyFileIsEmpty(ends: seq<End>)
    requires FileOk([], ends)
    ensures FileText([], ends) == ""
  {
  }

  lemma OneLineIsLast(lines: seq<seq<Field>>)
    requires FileOk(lines, []) && lines != []
    ensures |lines| == 1 && LineOk(lines[0]) && FileText(lines, []) == LineText(lines[0]) && Records(lines) == KeptRow(lines[0])
  {
    assert lines[1..] == [];
  }

  lemma EndOfNothing(s: Scan)
    requires s.row == [] && s.cell == ""
    ensures EndRow(s).rows == s.rows
  {
  }

  lemma ScanNothing(s: Scan)
    ensures ScanText(s, "") == s
  {
  }

  lemma EmptyRowIsBlank()
    ensures BlankRow([""])
  {
  }

  /** Any mix of quoted and plain fields, with any line breaks, parses to its contents. */
  lemma ParsesRfc4180(lines: seq<seq<Field>>, ends: seq<End>)
    requires FileOk(lines, ends)
    ensures Parsed(FileText(lines, ends)) == Ok(Records(lines))
  {
    hide ScanText, EndRow, FileText;
    ScanFile(START, lines, ends);
    assert [] + Records(lines) == Records(lines);
  }

  // ---------------------------------------------------------------------------
  // Round trip
  // ---------------------------------------------------------------------------

  function GuardedRow(row: seq<string>): seq<string> {
    seq(|row|, i requires 0 <= i < |row| => Guarded(row[i]))
  }

  /** The rows with a non-blank cell, their cells guarded. */
  function KeptRows(rows: seq<seq<string>>): seq<seq<string>> {
    if rows == [] then []
    else (if BlankRow(rows[0]) then [] else [GuardedRow(rows[0])]) + KeptRows(rows[1..])
  }

  /** A printed row as fields; a row without cells prints as an empty line. */
  function AsLine(row: seq<string>): seq<Field> {
    if row == [] then [Plain("")] else seq(|row|, i requires 0 <= i < |row| => Quoted(Guarded(row[i])))
  }

  function AsLines(rows: seq<seq<string>>): seq<seq<Field>> {
    seq(|rows|, i requires 0 <= i < |rows| => AsLine(rows[i]))
  }

  lemma {:induction false} PrintRowIsLine(row: seq<string>)
    ensures PrintRow(row) == LineText(AsLine(row))
  {
    hide Guarded, Doubled;
    var cells := seq(|row|, i requires 0 <= i < |row| => CsvCell(row[i]));
    if |row| > 1 {
      PrintRowIsLine(row[1..]);
      assert cells[1..] == seq(|row[1..]|, i requires 0 <= i < |row[1..]| => CsvCell(row[1..][i]));
      assert AsLine(row)[1..] == AsLine(row[1..]);
      assert PrintRow(row) == CsvCell(row[0]) + "," + PrintRow(row[1..]);
    }
  }

  lemma {:induction false} PrintCsvIsFile(rows: seq<seq<string>>)
    requires rows != []
    ensures FileOk(AsLines(rows), seq(|rows| - 1, _ => Crlf))
    ensures PrintCsv(rows) == FileText(AsLines(rows), seq(|rows| - 1, _ => Crlf))
  {
    hide PrintRow, LineText, AsLine;
    var lines, ends := AsLines(rows), seq(|rows| - 1, _ => Crlf);
    forall i | 0 <= i < |lines| ensures LineOk(lines[i]) {
      AsLineOk(rows[i]);
    }
    PrintRowIsLine(rows[0]);
    var texts := seq(|rows|, i requires 0 <= i < |rows| => PrintRow(rows[i]));
    if |rows| > 1 {
      PrintCsvIsFile(rows[1..]);
      assert texts[1..] == seq(|rows[1..]|, i requires 0 <= i < |rows[1..]| => PrintRow(rows[1..][i]));
      assert lines[1..] == AsLines(rows[1..]);
      assert ends[1..] == seq(|rows[1..]| - 1, _ => Crlf);
      assert PrintCsv(rows) == PrintRow(rows[0]) + "\r\n" + PrintCsv(rows[1..]);
    }
  }

  lemma AsLineOk(row: seq<string>)
    ensures LineOk(AsLine(row))
  {
  }

  /** Guarding prefixes one quote at most, never blanks a cell, and leaves nothing that
      looks like a formula. */
  lemma {:induction false} GuardedIsInert(value: string)
    ensures !LooksLikeFormula(Guarded(value))
    ensures Guarded(value) == value || Guarded(value) == "'" + value
    ensures Blank(Guarded(value)) <==> Blank(value)
  {
    if LooksLikeFormula(value) {
      FormulaIsNotBlank(value);
      assert Guarded(value)[0] == '\'' && !IsSpace('\'');
    }
  }

  /** The guard is for a formula character behind nothing but control characters and spaces. */
  lemma {:induction false} GuardedMeans(value: string)
    ensures Guarded(value) != value <==> exists i :: FormulaAt(value, i)
  {
    if LooksLikeFormula(value) {
      assert Guarded(value)[1..] == value;
      if StartsFormula(value[0]) {
        assert FormulaAt(value, 0);
      } else {
        GuardedMeans(value[1..]);
        assert LooksLikeFormula(value[1..]) && Guarded(value[1..]) == "'" + value[1..];
        var i :| FormulaAt(value[1..], i);
        assert FormulaAt(value, i + 1);
      }
    } else if i :| FormulaAt(value, i) {
      GuardedMeans(value[1..]);
      assert i > 0 && FormulaAt(value[1..], i - 1);
    }
  }

  predicate FormulaAt(value: string, i: int) {
    0 <= i < |value| && StartsFormula(value[i]) && forall j :: 0 <= j < i ==> value[j] <= ' '
  }

  lemma {:induction false} FormulaIsNotBlank(value: string)
    requires LooksLikeFormula(value)
    ensures !Blank(value)
  {
    if StartsFormula(value[0]) {
      assert value[0] in value && !IsSpace(value[0]);
    } else {
      FormulaIsNotBlank(value[1..]);
      var c :| c in value[1..] && !IsSpace(c);
      assert c in value;
    }
  }

  lemma AsLineReads(row: seq<string>)
    ensures BlankRow(Contents(AsLine(row))) <==> BlankRow(row)
    ensures row != [] ==> Contents(AsLine(row)) == GuardedRow(row)
  {
    hide Guarded, Blank;
    if row == [] {
      assert Contents(AsLine(row)) == [""];
      EmptyRowIsBlank();
    } else {
      var line := GuardedRow(row);
      assert Contents(AsLine(row)) == line;
      forall i | 0 <= i < |row| ensures Blank(line[i]) <==> Blank(row[i]) {
        GuardedIsInert(row[i]);
      }
      assert forall i :: 0 <= i < |row| ==> row[i] in row && line[i] in line;
    }
  }

  lemma {:induction false} RecordsOfPrinted(rows: seq<seq<string>>)
    ensures Records(AsLines(rows)) == KeptRows(rows)
  {
    hide BlankRow, AsLine, GuardedRow;
    if rows != [] {
      AsLineReads(rows[0]);
      assert BlankRow([]) by { NoCellsAreBlank(); }
      assert AsLines(rows)[1..] == AsLines(rows[1..]);
      RecordsOfPrinted(rows[1..]);
    }
  }

  lemma NoCellsAreBlank()
    ensures BlankRow([])
  {
  }

  lemma NothingParses()
    ensures Parsed("") == Ok([])
  {
  }

  /** Parsing what was printed gives back the guarded cells of every row that has a
      non-blank cell, whatever quotes, commas and line breaks the cells contain. */
  lemma RoundTrip(rows: seq<seq<string>>)
    ensures Parsed(PrintCsv(rows)) == Ok(KeptRows(rows))
  {
    hide ScanText, FileText, BlankRow;
    if rows == [] {
      NothingParses();
    } else {
      PrintCsvIsFile(rows);
      ParsesRfc4180(AsLines(rows), seq(|rows| - 1, _ => Crlf));
      RecordsOfPrinted(rows);
    }
  }
}
