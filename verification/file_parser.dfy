/** The student-file reader: the required-column check with its
    case- and accent-insensitive fallback, the completeness rule, the two
    Word scanners (tables, then free-text paragraphs), the batch validation
    report and the dispatch on the file extension.

    A Word document is given as the cell texts of its tables
    (tables / rows / cells) and the texts of its paragraphs; an Excel sheet
    is given as the records the spreadsheet reader produced, or `None` when
    that reader raised. */
module FileParser {
  import opened Common
  import opened Text

  /** The six columns every student record must carry, in their fixed order. */
  const RequiredColumns: seq<string> :=
    ["Nom", "Prénom", "Date de Naissance", "Lieu de Naissance", "Filière Actuelle", "Carrière Envisagée"]

  // ---------------------------------------------------------------------------
  // Column names

  /** Lower-case, decompose accented letters, drop the combining marks, keep
      the alphanumeric characters. */
  function NormalizeColumnName(name: string): (r: string)
    ensures forall k :: 0 <= k < |r| ==>
              IsAlnum(r[k]) && !IsCombiningMark(r[k]) && !IsDecomposable(r[k]) && !IsUpperLetter(r[k])
  {
    var lowered := Lower(name);
    var decomposed := Nfd(lowered);
    NfdNoUpper(lowered);
    var unmarked := DropMarks(decomposed);
    KeepAlnum(unmarked)
  }

  /** The normal form of one character. */
  function NormalizeChar(c: char): string {
    KeepAlnum(DropMarks(DecomposeChar(LowerChar(c))))
  }

  /** Normalisation works character by character. */
  lemma NormalizeAppend(a: string, b: string)
    ensures NormalizeColumnName(a + b) == NormalizeColumnName(a) + NormalizeColumnName(b)
  {
    LowerAppend(a, b);
    NfdAppend(Lower(a), Lower(b));
    DropMarksAppend(Nfd(Lower(a)), Nfd(Lower(b)));
    KeepAlnumAppend(DropMarks(Nfd(Lower(a))), DropMarks(Nfd(Lower(b))));
  }

  /** A normal form is its own normal form. */
  lemma NormalizeIdempotent(name: string)
    ensures NormalizeColumnName(NormalizeColumnName(name)) == NormalizeColumnName(name)
  {
    var r := NormalizeColumnName(name);
    assert Lower(r) == r;
    NfdStable(r);
    DropMarksStable(r);
    KeepAlnumStable(r);
  }

  /** Case does not matter. */
  lemma NormalizeIgnoresCase(name: string)
    ensures NormalizeColumnName(Lower(name)) == NormalizeColumnName(name)
  {
    LowerIdempotent(name);
  }

  /** The normal form of a one-character text. */
  lemma NormalizeOne(c: char)
    ensures NormalizeColumnName([c]) == NormalizeChar(c)
  {
    var lc := LowerChar(c);
    assert Lower([c]) == [lc];
    assert [lc][..0] == [];
    assert Nfd([lc]) == DecomposeChar(lc);
  }

  /** A lower-case ASCII letter is its own normal form. */
  lemma PlainLetter(b: char)
    requires 'a' <= b <= 'z'
    ensures NormalizeChar(b) == [b]
  {
    assert LowerChar(b) == b;
    assert !IsDecomposable(b);
    DropMarksStable([b]);
    KeepAlnumStable([b]);
  }

  /** An accented letter normalises to its base letter. */
  lemma AccentedChar(c: char)
    requires IsDecomposable(LowerChar(c))
    ensures 'a' <= BaseLetter(LowerChar(c)) <= 'z'
    ensures NormalizeChar(c) == [BaseLetter(LowerChar(c))]
  {
    var lc := LowerChar(c);
    var b := BaseLetter(lc);
    var m := MarkOf(lc);
    assert 'a' <= b <= 'z';
    assert DecomposeChar(lc) == [b, m];
    assert [b, m][..1] == [b];
    assert DropMarks([b, m]) == DropMarks([b]);
    PlainLetter(b);
    assert [b][..0] == [];
    assert DropMarks([b]) == [b];
  }

  /** An accented letter counts as its base letter. */
  lemma NormalizeIgnoresAccent(front: string, c: char, back: string)
    requires IsDecomposable(LowerChar(c))
    ensures NormalizeColumnName(front + [c] + back)
         == NormalizeColumnName(front + [BaseLetter(LowerChar(c))] + back)
  {
    var b := BaseLetter(LowerChar(c));
    NormalizeAppend(front + [c], back);
    NormalizeAppend(front, [c]);
    NormalizeAppend(front + [b], back);
    NormalizeAppend(front, [b]);
    NormalizeOne(c);
    NormalizeOne(b);
    AccentedChar(c);
    PlainLetter(b);
  }

  /** A character that is neither alphanumeric nor an upper-case letter normalises to nothing. */
  lemma SeparatorChar(c: char)
    requires !IsAlnum(c) && !IsUpperLetter(c)
    ensures NormalizeChar(c) == []
  {
    assert LowerChar(c) == c;
    assert BaseLetter(c) == c;
    assert DecomposeChar(c) == [c];
    assert [c][..0] == [];
    assert DropMarks([c]) == [] || DropMarks([c]) == [c];
    if DropMarks([c]) == [c] {
      assert KeepAlnum([c]) == [];
    }
  }

  /** Spaces, punctuation and every other non-alphanumeric character are dropped. */
  lemma NormalizeIgnoresSeparator(front: string, c: char, back: string)
    requires !IsAlnum(c) && !IsUpperLetter(c)
    ensures NormalizeColumnName(front + [c] + back) == NormalizeColumnName(front + back)
  {
    NormalizeAppend(front + [c], back);
    NormalizeAppend(front, [c]);
    NormalizeAppend(front, back);
    NormalizeOne(c);
    SeparatorChar(c);
  }

  /** `required` is among the columns, verbatim or up to normalisation. */
  predicate HasColumn(columns: seq<string>, required: string) {
    required in columns
    || exists k :: 0 <= k < |columns| && NormalizeColumnName(columns[k]) == NormalizeColumnName(required)
  }

  /** The names of `required` that `columns` lacks, in the order of `required`. */
  function MissingAmong(required: seq<string>, columns: seq<string>): (r: seq<string>)
    ensures |r| <= |required|
    ensures forall c :: c in r <==> c in required && !HasColumn(columns, c)
  {
    if required == [] then []
    else
      var init := MissingAmong(required[..|required| - 1], columns);
      var c := required[|required| - 1];
      assert required == required[..|required| - 1] + [c];
      init + (if HasColumn(columns, c) then [] else [c])
  }

  /** The missing-column report for a header row. */
  function MissingColumns(columns: seq<string>): seq<string> {
    MissingAmong(RequiredColumns, columns)
  }

  /** `r` is `xs` with some items left out and the rest in their order. */
  predicate IsSubsequence(r: seq<string>, xs: seq<string>)
    decreases |xs|
  {
    r == []
    || (xs != []
        && ((r[|r| - 1] == xs[|xs| - 1] && IsSubsequence(r[..|r| - 1], xs[..|xs| - 1]))
            || IsSubsequence(r, xs[..|xs| - 1])))
  }

  /** The missing names keep the order of the required list. */
  lemma {:induction false} MissingAmongOrdered(required: seq<string>, columns: seq<string>)
    ensures IsSubsequence(MissingAmong(required, columns), required)
  {
    if required != [] {
      var init := required[..|required| - 1];
      var c := required[|required| - 1];
      MissingAmongOrdered(init, columns);
      var r0 := MissingAmong(init, columns);
      var r := MissingAmong(required, columns);
      if HasColumn(columns, c) {
        assert r == r0;
      } else {
        assert r == r0 + [c];
        assert r[..|r| - 1] == r0;
      }
    }
  }

  /** The report lists, in the order of the required columns, exactly the
      required names found neither verbatim nor up to normalisation; a column
      present verbatim is never reported. */
  lemma MissingColumnsSpec(columns: seq<string>)
    ensures forall c :: c in MissingColumns(columns) <==>
              c in RequiredColumns && c !in columns
              && forall k :: 0 <= k < |columns| ==> NormalizeColumnName(columns[k]) != NormalizeColumnName(c)
    ensures IsSubsequence(MissingColumns(columns), RequiredColumns)
  {
    MissingAmongOrdered(RequiredColumns, columns);
    assert MissingColumns(columns) == MissingAmong(RequiredColumns, columns);
  }

  /** A header that differs from a required name only in case, accents,
      spaces or punctuation satisfies that requirement (so "filiere actuelle"
      stands for "Filière Actuelle", by NormalizeIgnoresCase and
      NormalizeIgnoresAccent). */
  lemma VariantHeaderAccepted(columns: seq<string>, required: string, variant: string)
    requires variant in columns
    requires NormalizeColumnName(variant) == NormalizeColumnName(required)
    ensures required !in MissingColumns(columns)
  {
    var k :| 0 <= k < |columns| && columns[k] == variant;
    assert HasColumn(columns, required);
  }

  /** Whether some column normalises to the same text as `required`. */
  method HasNormalizedColumn(columns: seq<string>, required: string) returns (found: bool)
    ensures found <==> exists k :: 0 <= k < |columns| && NormalizeColumnName(columns[k]) == NormalizeColumnName(required)
  {
    found := false;
    var target := NormalizeColumnName(required);
    var j := 0;
    while j < |columns|
      invariant 0 <= j <= |columns|
      invariant forall k :: 0 <= k < j ==> NormalizeColumnName(columns[k]) != target
    {
      if NormalizeColumnName(columns[j]) == target {
        found := true;
        return;
      }
      j := j + 1;
    }
  }

  /** The names of `required` absent from the columns, first verbatim and
      then up to normalisation, in the order of `required`. */
  method MissingNames(columns: seq<string>, required: seq<string>) returns (missing: seq<string>)
    ensures missing == MissingAmong(required, columns)
  {
    missing := [];
    var i := 0;
    while i < |required|
      invariant 0 <= i <= |required|
      invariant missing == MissingAmong(required[..i], columns)
    {
      var name := required[i];
      assert required[..i + 1][..i] == required[..i];
      if name !in columns {
        var found := HasNormalizedColumn(columns, name);
        if !found {
          missing := missing + [name];
        }
      }
      i := i + 1;
    }
    assert required[..i] == required;
  }

  /** `_check_required_columns`. */
  method CheckRequiredColumns(columns: seq<string>) returns (missing: seq<string>)
    ensures missing == MissingColumns(columns)
  {
    missing := MissingNames(columns, RequiredColumns);
  }

  // ---------------------------------------------------------------------------
  // Completeness

  /** The field is absent or holds only white space. */
  predicate IsBlank(student: StudentRecord, key: string) {
    Strip(GetOr(student, key, "")) == ""
  }

  /** A student has at least a name and a current programme. */
  predicate IsStudentComplete(student: StudentRecord) {
    !IsBlank(student, "Nom") && !IsBlank(student, "Filière Actuelle")
  }

  /** The field is present and holds a character other than white space. */
  predicate HasText(student: StudentRecord, key: string) {
    key in student && exists j :: 0 <= j < |student[key]| && !IsSpace(student[key][j])
  }

  /** Complete means: `Nom` and `Filière Actuelle` are present and not blank. */
  lemma CompleteIff(student: StudentRecord)
    ensures IsStudentComplete(student) <==> HasText(student, "Nom") && HasText(student, "Filière Actuelle")
  {
    StripEmpty(GetOr(student, "Nom", ""));
    StripEmpty(GetOr(student, "Filière Actuelle", ""));
  }

  // ---------------------------------------------------------------------------
  // Word tables

  /** The texts of a table row's cells. */
  type Row = seq<string>

  /** A table as its rows, the first being the header row. */
  type Table = seq<Row>

  /** The header row with every cell stripped. */
  function Headers(table: Table): (h: seq<string>)
    requires |table| > 0
    ensures |h| == |table[0]|
  {
    seq(|table[0]|, k requires 0 <= k < |table[0]| => Strip(table[0][k]))
  }

  /** The record read from the cells of one data row: a cell is kept, stripped,
      when its column has a header that is exactly a required name; a later
      column with the same header overwrites an earlier one. */
  function RowRecord(headers: seq<string>, cells: Row): StudentRecord {
    KeptCells(headers, cells, RequiredColumns)
  }

  /** The stripped cells whose header is one of `wanted`, keyed by that header. */
  function KeptCells(headers: seq<string>, cells: Row, wanted: seq<string>): StudentRecord {
    if cells == [] then map[]
    else
      var k := |cells| - 1;
      var init := KeptCells(headers, cells[..k], wanted);
      if k < |headers| && headers[k] in wanted then init[headers[k] := Strip(cells[k])] else init
  }

  /** Column `k` is the last of the first `n` columns whose header is `c`. */
  predicate LastColumnWith(headers: seq<string>, n: int, c: string, k: int) {
    0 <= k < n && k < |headers| && headers[k] == c
    && forall j :: k < j < n && j < |headers| ==> headers[j] != c
  }

  /** Every key of the kept cells is wanted and holds the stripped cell of the
      last column with exactly that header. */
  lemma {:induction false} KeptCellsKeys(headers: seq<string>, cells: Row, wanted: seq<string>)
    ensures var r := KeptCells(headers, cells, wanted);
      forall c :: c in r ==>
        c in wanted
        && exists k :: LastColumnWith(headers, |cells|, c, k) && r[c] == Strip(cells[k])
  {
    if cells != [] {
      var n := |cells| - 1;
      var front := cells[..n];
      KeptCellsKeys(headers, front, wanted);
      var r0 := KeptCells(headers, front, wanted);
      var r := KeptCells(headers, cells, wanted);
      forall c | c in r
        ensures c in wanted
        ensures exists k :: LastColumnWith(headers, |cells|, c, k) && r[c] == Strip(cells[k])
      {
        if n < |headers| && headers[n] in wanted && headers[n] == c {
          assert LastColumnWith(headers, |cells|, c, n) && r[c] == Strip(cells[n]);
        } else {
          assert c in r0 && r[c] == r0[c];
          var k :| LastColumnWith(headers, n, c, k) && r0[c] == Strip(front[k]);
          assert front[k] == cells[k];
          assert n < |headers| ==> headers[n] != c;
          LastColumnStays(headers, n, c, k);
        }
      }
    }
  }

  /** A column that is not headed `c` keeps the last column headed `c`. */
  lemma LastColumnStays(headers: seq<string>, n: int, c: string, k: int)
    requires LastColumnWith(headers, n, c, k)
    requires n < |headers| ==> headers[n] != c
    ensures LastColumnWith(headers, n + 1, c, k)
  {
  }

  /** Every wanted header with a cell is a key of the kept cells. */
  lemma {:induction false} KeptCellsPresent(headers: seq<string>, cells: Row, wanted: seq<string>)
    ensures forall k :: 0 <= k < |cells| && k < |headers| && headers[k] in wanted ==> headers[k] in KeptCells(headers, cells, wanted)
  {
    if cells != [] {
      var n := |cells| - 1;
      var front := cells[..n];
      KeptCellsPresent(headers, front, wanted);
      var r0 := KeptCells(headers, front, wanted);
      var r := KeptCells(headers, cells, wanted);
      assert forall c :: c in r0 ==> c in r;
      forall k | 0 <= k < |cells| && k < |headers| && headers[k] in wanted ensures headers[k] in r {
        if k < n {
          assert front[k] == cells[k];
          assert headers[k] in r0;
        }
      }
    }
  }

  /** Only required names are keys of a row's record, each holding the stripped
      cell of the last column with exactly that header; every required header
      with a cell is a key. */
  lemma RowRecordSpec(headers: seq<string>, cells: Row)
    ensures var r := RowRecord(headers, cells);
      forall c :: c in r ==>
        c in RequiredColumns
        && exists k :: LastColumnWith(headers, |cells|, c, k) && r[c] == Strip(cells[k])
    ensures forall k :: 0 <= k < |cells| && k < |headers| && headers[k] in RequiredColumns ==> headers[k] in RowRecord(headers, cells)
  {
    KeptCellsKeys(headers, cells, RequiredColumns);
    KeptCellsPresent(headers, cells, RequiredColumns);
  }

  /** The record with an empty text for every required column it lacks. */
  function WithAllColumns(record: StudentRecord): (r: StudentRecord)
    ensures forall c :: c in RequiredColumns ==> c in r
    ensures forall c :: c in r <==> c in record || c in RequiredColumns
    ensures forall c :: c in r ==> r[c] == GetOr(record, c, "")
  {
    map c | c in record.Keys + (set x | x in RequiredColumns) :: GetOr(record, c, "")
  }

  /** A student as the table scanner emits it: complete, with exactly the
      required fields, and empty in each required field that is not a header. */
  ghost predicate TableStudentOk(student: StudentRecord, headers: seq<string>) {
    IsStudentComplete(student)
    && (forall c :: c in student <==> c in RequiredColumns)
    && forall c :: c in RequiredColumns && c !in headers ==> student[c] == ""
  }

  /** The student read from one data row, if its record is complete. */
  function RowStudent(headers: seq<string>, cells: Row): (r: Option<StudentRecord>)
    ensures r.Some? <==> IsStudentComplete(RowRecord(headers, cells))
    ensures r.Some? ==> TableStudentOk(r.value, headers)
  {
    var record := RowRecord(headers, cells);
    RowRecordSpec(headers, cells);
    if IsStudentComplete(record) then
      var s := WithAllColumns(record);
      assert "Nom" in RequiredColumns && "Filière Actuelle" in RequiredColumns;
      assert GetOr(s, "Nom", "") == GetOr(record, "Nom", "");
      assert GetOr(s, "Filière Actuelle", "") == GetOr(record, "Filière Actuelle", "");
      Some(s)
    else None
  }

  /** The students read from data rows under the given headers. */
  function RowsStudents(headers: seq<string>, rows: seq<Row>): (r: seq<StudentRecord>)
    ensures |r| <= |rows|
    ensures forall i :: 0 <= i < |r| ==> TableStudentOk(r[i], headers)
  {
    if rows == [] then []
    else
      var init := RowsStudents(headers, rows[..|rows| - 1]);
      match RowStudent(headers, rows[|rows| - 1])
      case Some(s) => init + [s]
      case None => init
  }

  /** Complete, with exactly the required fields. */
  ghost predicate TableRecordOk(student: StudentRecord) {
    IsStudentComplete(student) && forall c :: c in student <==> c in RequiredColumns
  }

  /** The students of one table; a table with fewer than two rows, or whose
      header row lacks a required column, yields none. */
  function TableStudents(table: Table): (r: seq<StudentRecord>)
  {
    if |table| < 2 then []
    else if MissingColumns(Headers(table)) != [] then []
    else RowsStudents(Headers(table), table[1..])
  }

  /** The students of all tables, table after table. */
  function WordTables(tables: seq<Table>): (r: seq<StudentRecord>)
  {
    if tables == [] then []
    else WordTables(tables[..|tables| - 1]) + TableStudents(tables[|tables| - 1])
  }

  /** Every student read from tables is complete and has exactly the six
      required fields; a required column whose header is not exactly its name
      (even when the header check accepted it up to normalisation) yields an
      empty text; a short table or one lacking a column contributes nothing. */
  lemma {:induction false} WordTablesSpec(tables: seq<Table>)
    ensures forall i :: 0 <= i < |WordTables(tables)| ==> TableRecordOk(WordTables(tables)[i])
    ensures forall t :: t in tables && (|t| < 2 || MissingColumns(Headers(t)) != []) ==> TableStudents(t) == []
  {
    if tables != [] {
      var init := tables[..|tables| - 1];
      WordTablesSpec(init);
      var last := TableStudents(tables[|tables| - 1]);
      forall i | 0 <= i < |last| ensures TableRecordOk(last[i]) {
        var h := Headers(tables[|tables| - 1]);
        assert TableStudentOk(last[i], h);
      }
      assert WordTables(tables) == WordTables(init) + last;
    }
  }

  /** A required column that is not a header of the table, verbatim, is empty
      in every student read from it. */
  lemma HeaderOnlyByNormalisation(table: Table, c: string)
    requires |table| >= 2 && c in RequiredColumns && c !in Headers(table)
    ensures forall i :: 0 <= i < |TableStudents(table)| ==> TableStudents(table)[i][c] == ""
  {
    var r := TableStudents(table);
    forall i | 0 <= i < |r| ensures r[i][c] == "" {
      assert TableStudentOk(r[i], Headers(table));
    }
  }

  /** The record of one data row (the inner loop over cells). */
  method ReadRow(headers: seq<string>, cells: Row) returns (record: StudentRecord)
    ensures record == RowRecord(headers, cells)
  {
    record := map[];
    var k := 0;
    while k < |cells|
      invariant 0 <= k <= |cells|
      invariant record == RowRecord(headers, cells[..k])
    {
      assert cells[..k + 1][..k] == cells[..k];
      if k < |headers| {
        var header := headers[k];
        if header in RequiredColumns {
          record := record[header := Strip(cells[k])];
        }
      }
      k := k + 1;
    }
    assert cells[..k] == cells;
  }

  /** Adds an empty text for each required column the record lacks. */
  method FillMissing(record: StudentRecord) returns (r: StudentRecord)
    ensures r == WithAllColumns(record)
  {
    r := record;
    var i := 0;
    while i < |RequiredColumns|
      invariant 0 <= i <= |RequiredColumns|
      invariant forall c :: c in r <==> c in record || c in RequiredColumns[..i]
      invariant forall c :: c in r ==> r[c] == GetOr(record, c, "")
    {
      if RequiredColumns[i] !in r {
        r := r[RequiredColumns[i] := ""];
      }
      i := i + 1;
    }
    assert RequiredColumns[..i] == RequiredColumns;
  }

  /** The students of the data rows under the given headers. */
  method ReadRows(headers: seq<string>, rows: seq<Row>) returns (students: seq<StudentRecord>)
    ensures students == RowsStudents(headers, rows)
  {
    students := [];
    var i := 0;
    while i < |rows|
      invariant 0 <= i <= |rows|
      invariant students == RowsStudents(headers, rows[..i])
    {
      assert rows[..i + 1][..i] == rows[..i];
      var record := ReadRow(headers, rows[i]);
      if IsStudentComplete(record) {
        record := FillMissing(record);
        students := students + [record];
      }
      i := i + 1;
    }
    assert rows[..i] == rows;
  }

  /** The students of one table (the body of the loop over tables). */
  method ReadTable(table: Table) returns (students: seq<StudentRecord>)
    ensures students == TableStudents(table)
  {
    students := [];
    if |table| < 2 {
      return;
    }
    var headers := seq(|table[0]|, k requires 0 <= k < |table[0]| => Strip(table[0][k]));
    assert headers == Headers(table);
    var missing := CheckRequiredColumns(headers);
    if missing != [] {
      return;
    }
    students := ReadRows(headers, table[1..]);
  }

  /** `_parse_word_tables`. */
  method ParseWordTables(tables: seq<Table>) returns (students: seq<StudentRecord>)
    ensures students == WordTables(tables)
  {
    students := [];
    var i := 0;
    while i < |tables|
      invariant 0 <= i <= |tables|
      invariant students == WordTables(tables[..i])
    {
      assert tables[..i + 1][..i] == tables[..i];
      var found := ReadTable(tables[i]);
      students := students + found;
      i := i + 1;
    }
    assert tables[..i] == tables;
  }

  // ---------------------------------------------------------------------------
  // Word free text

  /** For each field, in this order, the labels that introduce it, each tried
      in turn; labels are matched against the lower-cased paragraph. */
  const FieldPatterns: seq<(string, seq<string>)> := [
    ("Nom", ["nom:", "nom :", "name:"]),
    ("Prénom", ["prénom:", "prénom :", "prenom:", "firstname:"]),
    ("Date de Naissance", ["date de naissance:", "naissance:", "né le:", "birthdate:"]),
    ("Lieu de Naissance", ["lieu de naissance:", "lieu:", "né à:", "birthplace:"]),
    ("Filière Actuelle", ["filière:", "filiere:", "filière actuelle:", "field:"]),
    ("Carrière Envisagée", ["carrière:", "carriere:", "carrière envisagée:", "career:"])
  ]

  /** The field names of the label table are the required columns. */
  lemma FieldNamesRequired()
    ensures |FieldPatterns| == |RequiredColumns|
    ensures forall i :: 0 <= i < |FieldPatterns| ==> FieldPatterns[i].0 == RequiredColumns[i]
    ensures FieldPatterns[0].0 == "Nom" && FieldPatterns[1].0 == "Prénom"
  {
  }

  /** The paragraph as the labels are matched against it. */
  function LabelText(paragraph: string): (text: string)
    ensures |text| <= |paragraph|
  {
    Lower(Strip(paragraph))
  }

  /** The first label of the list that occurs in the text. */
  function FirstPattern(text: string, patterns: seq<string>): (r: Option<string>)
    ensures r.Some? ==> exists k :: 0 <= k < |patterns| && patterns[k] == r.value && Contains(text, patterns[k])
                                     && forall j :: 0 <= j < k ==> !Contains(text, patterns[j])
    ensures r.None? <==> forall k :: 0 <= k < |patterns| ==> !Contains(text, patterns[k])
  {
    if patterns == [] then None
    else if Contains(text, patterns[0]) then Some(patterns[0])
    else
      var r := FirstPattern(text, patterns[1..]);
      assert r.Some? ==> exists k :: 0 <= k < |patterns| && patterns[k] == r.value && Contains(text, patterns[k])
                                     && forall j :: 0 <= j < k ==> !Contains(text, patterns[j]) by {
        if r.Some? {
          var rest := patterns[1..];
          var k :| 0 <= k < |rest| && rest[k] == r.value && Contains(text, rest[k])
                   && forall j :: 0 <= j < k ==> !Contains(text, rest[j]);
          forall j | 0 <= j < k + 1 ensures !Contains(text, patterns[j]) {
            if j > 0 {
              assert patterns[j] == rest[j - 1];
            }
          }
          assert patterns[k + 1] == r.value;
        }
      }
      r
  }

  /** Where the value starts: just after the first occurrence of the label in
      the lower-cased, stripped paragraph. */
  function ValueStart(paragraph: string, pattern: string): (i: nat)
    requires Contains(LabelText(paragraph), pattern)
    ensures i <= |Strip(paragraph)|
    ensures OccursAt(LabelText(paragraph), pattern, i - |pattern|)
  {
    Find(LabelText(paragraph), pattern) + |pattern|
  }

  /** The value of a field as intended: the stripped text after the label,
      taken from the stripped paragraph, where the label position was found. */
  function FieldValue(paragraph: string, pattern: string): string
    requires Contains(LabelText(paragraph), pattern)
  {
    Strip(Strip(paragraph)[ValueStart(paragraph, pattern)..])
  }

  /** Lower-casing a slice is slicing the lower-cased text. */
  lemma LowerSlice(s: string, i: nat, j: nat)
    requires i <= j <= |s|
    ensures Lower(s[i..j]) == Lower(s)[i..j]
  {
  }

  /** The value is what follows the first occurrence of the label in the
      stripped paragraph, with the label matched regardless of case. */
  lemma FieldValueFollowsLabel(paragraph: string, pattern: string)
    requires Contains(LabelText(paragraph), pattern)
    ensures var s := Strip(paragraph);
      var i := ValueStart(paragraph, pattern);
      |pattern| <= i <= |s|
      && Lower(s[i - |pattern|..i]) == pattern
      && (forall j :: 0 <= j < i - |pattern| ==> !OccursAt(Lower(s), pattern, j))
      && FieldValue(paragraph, pattern) == Strip(s[i..])
  {
    var s := Strip(paragraph);
    var i := ValueStart(paragraph, pattern);
    LowerSlice(s, i - |pattern|, i);
  }

  /** The value as the original computes it: the position found in the
      stripped paragraph is applied to the unstripped one. */
  function FieldValueAsWritten(paragraph: string, pattern: string): (r: string)
    requires Contains(LabelText(paragraph), pattern)
    ensures |r| <= |paragraph| - ValueStart(paragraph, pattern)
  {
    Strip(paragraph[ValueStart(paragraph, pattern)..])
  }

  lemma UnpaddedLabel(s: string)
    requires s == "Nom: Jean"
    ensures TrimStart(s) == s && TrimEnd(s) == s && Lower(s) == "nom: jean"
  {
    assert !IsSpace(s[0]);
    assert !IsSpace(s[|s| - 1]);
  }

  lemma IndentSkipped(paragraph: string)
    requires paragraph == "  Nom: Jean"
    ensures TrimStart(paragraph) == TrimStart(paragraph[2..]) && paragraph[2..] == "Nom: Jean"
  {
    assert IsSpace(paragraph[0]);
    assert IsSpace(paragraph[1..][0]);
    assert paragraph[1..][1..] == paragraph[2..];
  }

  lemma IndentedLabelText(paragraph: string)
    requires paragraph == "  Nom: Jean"
    ensures Strip(paragraph) == "Nom: Jean"
    ensures LabelText(paragraph) == "nom: jean"
  {
    IndentSkipped(paragraph);
    UnpaddedLabel(paragraph[2..]);
  }

  lemma IndentedLabelStart(paragraph: string)
    requires paragraph == "  Nom: Jean"
    ensures Contains(LabelText(paragraph), "nom:")
    ensures ValueStart(paragraph, "nom:") == 4
  {
    IndentedLabelText(paragraph);
    var text := LabelText(paragraph);
    assert text[0..4] == "nom:";
    assert FindFrom(text, "nom:", 0) == 0;
  }

  lemma UnpaddedValue(s: string)
    requires s == "m: Jean"
    ensures Strip(s) == s
  {
    assert !IsSpace(s[0]);
    assert !IsSpace(s[|s| - 1]);
  }

  lemma PaddedValue(s: string)
    requires s == " Jean"
    ensures Strip(s) == "Jean"
  {
    assert IsSpace(s[0]);
    assert s[1..] == "Jean";
    assert !IsSpace(s[1..][0]);
    assert !IsSpace(s[|s| - 1]);
  }

  /** An indented paragraph loses the start of its value: for "  Nom: Jean"
      the original reads "m: Jean" where "Jean" is meant. */
  lemma IndentedLabelCounterexample(paragraph: string)
    requires paragraph == "  Nom: Jean"
    ensures Contains(LabelText(paragraph), "nom:")
    ensures FieldValueAsWritten(paragraph, "nom:") == "m: Jean"
    ensures FieldValue(paragraph, "nom:") == "Jean"
  {
    IndentedLabelText(paragraph);
    IndentedLabelStart(paragraph);
    var asWritten, intended := ValueTails(paragraph, Strip(paragraph));
    UnpaddedValue(asWritten);
    PaddedValue(intended);
  }

  lemma ValueTails(paragraph: string, stripped: string) returns (asWritten: string, intended: string)
    requires paragraph == "  Nom: Jean" && stripped == "Nom: Jean"
    ensures asWritten == paragraph[4..] == "m: Jean"
    ensures intended == stripped[4..] == " Jean"
  {
    asWritten, intended := paragraph[4..], stripped[4..];
  }

  /** The two readings differ only on indented paragraphs: when the paragraph
      does not start with white space, reading from the paragraph and reading
      from the stripped paragraph give the same value. */
  lemma ReadingsAgreeUnindented(paragraph: string, pattern: string)
    requires Contains(LabelText(paragraph), pattern)
    requires paragraph == [] || !IsSpace(paragraph[0])
    ensures FieldValueAsWritten(paragraph, pattern) == FieldValue(paragraph, pattern)
  {
    StripUnindentedTail(paragraph, ValueStart(paragraph, pattern));
  }

  /** The label table applied with any way of reading one field from its
      labels: in table order, each field whose reading yields a value is set
      to it. */
  function ApplyFields(record: StudentRecord, fields: seq<(string, seq<string>)>, read: seq<string> -> Option<string>)
    : StudentRecord
  {
    if fields == [] then record
    else
      var init := ApplyFields(record, fields[..|fields| - 1], read);
      var field := fields[|fields| - 1];
      match read(field.1)
      case None => init
      case Some(value) => init[field.0 := value]
  }

  /** The value one field receives from the paragraph, if one of its labels
      occurs, read the way the original reads it. */
  function FieldUpdate(paragraph: string, patterns: seq<string>): (r: Option<string>)
    ensures r.Some? <==> exists k :: 0 <= k < |patterns| && Contains(LabelText(paragraph), patterns[k])
  {
    match FirstPattern(LabelText(paragraph), patterns)
    case None => None
    case Some(pattern) => Some(FieldValueAsWritten(paragraph, pattern))
  }

  /** A field's value is read, as written, after the first of its labels that occurs. */
  lemma FieldUpdateValue(paragraph: string, patterns: seq<string>)
    ensures var r := FieldUpdate(paragraph, patterns);
      r.Some? ==> exists k :: 0 <= k < |patterns| && Contains(LabelText(paragraph), patterns[k])
                    && (forall j :: 0 <= j < k ==> !Contains(LabelText(paragraph), patterns[j]))
                    && r.value == FieldValueAsWritten(paragraph, patterns[k])
  {
    var text := LabelText(paragraph);
    var m := FirstPattern(text, patterns);
    if m.Some? {
      var k :| 0 <= k < |patterns| && patterns[k] == m.value && Contains(text, patterns[k])
               && forall j :: 0 <= j < k ==> !Contains(text, patterns[j]);
      assert FieldUpdate(paragraph, patterns).value == FieldValueAsWritten(paragraph, patterns[k]);
    }
  }

  /** Reading fields from one paragraph. */
  function Reader(paragraph: string): seq<string> -> Option<string> {
    patterns => FieldUpdate(paragraph, patterns)
  }

  /** Every field of the list whose labels occur in the paragraph set to its
      value, the others left as they were. */
  function MatchFields(record: StudentRecord, paragraph: string, fields: seq<(string, seq<string>)>): StudentRecord {
    ApplyFields(record, fields, Reader(paragraph))
  }

  /** The field names of a label table are pairwise different. */
  ghost predicate DistinctNames(fields: seq<(string, seq<string>)>) {
    forall i, j :: 0 <= i < j < |fields| ==> fields[i].0 != fields[j].0
  }

  /** One more field of the label table sets that field when one of its labels occurs. */
  lemma MatchFieldsLast(record: StudentRecord, paragraph: string, fields: seq<(string, seq<string>)>)
    requires fields != []
    ensures var last := fields[|fields| - 1];
      var m := FieldUpdate(paragraph, last.1);
      var r0 := MatchFields(record, paragraph, fields[..|fields| - 1]);
      MatchFields(record, paragraph, fields) == if m.Some? then r0[last.0 := m.value] else r0
  {
    assert Reader(paragraph)(fields[|fields| - 1].1) == FieldUpdate(paragraph, fields[|fields| - 1].1);
  }

  /** Every field of `fields` whose reading yields a value holds that value in `r`. */
  ghost predicate ReadSet(r: StudentRecord, fields: seq<(string, seq<string>)>, read: seq<string> -> Option<string>) {
    forall i :: 0 <= i < |fields| && read(fields[i].1).Some? ==>
      fields[i].0 in r && r[fields[i].0] == read(fields[i].1).value
  }

  /** With distinct field names, every field whose reading yields a value ends up holding it. */
  lemma {:induction false} AppliedFieldsSet(record: StudentRecord, fields: seq<(string, seq<string>)>, read: seq<string> -> Option<string>)
    requires DistinctNames(fields)
    ensures ReadSet(ApplyFields(record, fields, read), fields, read)
  {
    if fields != [] {
      var n := |fields| - 1;
      var init := fields[..n];
      assert DistinctNames(init) by {
        forall i, j | 0 <= i < j < |init| ensures init[i].0 != init[j].0 {
          assert init[i] == fields[i] && init[j] == fields[j];
        }
      }
      AppliedFieldsSet(record, init, read);
      forall i | 0 <= i < n ensures fields[i] == init[i] && fields[i].0 != fields[n].0 {
      }
    }
  }

  /** A key that is not a field name of the table keeps what the record had. */
  lemma {:induction false} AppliedOtherKeysKept(record: StudentRecord, fields: seq<(string, seq<string>)>, read: seq<string> -> Option<string>)
    ensures var r := ApplyFields(record, fields, read);
      forall c :: (forall i :: 0 <= i < |fields| ==> fields[i].0 != c) ==>
        (c in r <==> c in record) && (c in record ==> r[c] == record[c])
  {
    if fields != [] {
      var n := |fields| - 1;
      var init := fields[..n];
      AppliedOtherKeysKept(record, init, read);
      forall i | 0 <= i < n ensures fields[i] == init[i] {
      }
    }
  }

  /** With distinct field names, a field whose reading yields nothing keeps what the record had. */
  lemma {:induction false} AppliedFieldKept(record: StudentRecord, fields: seq<(string, seq<string>)>, read: seq<string> -> Option<string>, i: nat)
    requires DistinctNames(fields)
    requires i < |fields| && read(fields[i].1).None?
    ensures var r := ApplyFields(record, fields, read); var c := fields[i].0;
      (c in r <==> c in record) && (c in record ==> r[c] == record[c])
    decreases |fields|
  {
    var n := |fields| - 1;
    var init := fields[..n];
    assert forall j :: 0 <= j < n ==> init[j] == fields[j];
    var c := fields[i].0;
    if i < n {
      assert DistinctNames(init);
      AppliedFieldKept(record, init, read, i);
    } else {
      assert forall j :: 0 <= j < n ==> init[j].0 != c;
      AppliedOtherKeysKept(record, init, read);
    }
  }

  /** Each field whose labels occur gets the value after its first occurring label. */
  lemma MatchedFieldsSet(record: StudentRecord, paragraph: string, fields: seq<(string, seq<string>)>)
    requires DistinctNames(fields)
    ensures var r := MatchFields(record, paragraph, fields);
      forall i :: 0 <= i < |fields| && FieldUpdate(paragraph, fields[i].1).Some? ==>
        fields[i].0 in r && r[fields[i].0] == FieldUpdate(paragraph, fields[i].1).value
  {
    AppliedFieldsSet(record, fields, Reader(paragraph));
  }

  /** A key that is not a field name of the table keeps what the record had. */
  lemma OtherKeysKept(record: StudentRecord, paragraph: string, fields: seq<(string, seq<string>)>)
    ensures var r := MatchFields(record, paragraph, fields);
      forall c :: (forall i :: 0 <= i < |fields| ==> fields[i].0 != c) ==>
        (c in r <==> c in record) && (c in record ==> r[c] == record[c])
  {
    AppliedOtherKeysKept(record, fields, Reader(paragraph));
  }

  /** A field none of whose labels occurs keeps what the record had. */
  lemma UnmatchedFieldsKept(record: StudentRecord, paragraph: string, fields: seq<(string, seq<string>)>)
    requires DistinctNames(fields)
    ensures var r := MatchFields(record, paragraph, fields);
      forall i :: 0 <= i < |fields| && FieldUpdate(paragraph, fields[i].1).None? ==>
        (fields[i].0 in r <==> fields[i].0 in record) && (fields[i].0 in record ==> r[fields[i].0] == record[fields[i].0])
  {
    var r := MatchFields(record, paragraph, fields);
    forall i | 0 <= i < |fields| && FieldUpdate(paragraph, fields[i].1).None?
      ensures (fields[i].0 in r <==> fields[i].0 in record) && (fields[i].0 in record ==> r[fields[i].0] == record[fields[i].0])
    {
      AppliedFieldKept(record, fields, Reader(paragraph), i);
    }
  }

  /** The six field names are pairwise different. */
  lemma FieldPatternsDistinct()
    ensures DistinctNames(FieldPatterns)
  {
  }

  /** "nom:" occurs in any text that "prénom:" occurs in. */
  lemma NameLabelInsideFirstNameLabel(text: string)
    requires Contains(text, "prénom:")
    ensures Contains(text, "nom:")
  {
    ContainsInfix("pré", "nom:", "");
    assert "pré" + "nom:" + "" == "prénom:";
    ContainsTrans(text, "prénom:", "nom:");
  }

  lemma FirstNameLabels(text: string)
    requires Contains(text, "prénom:") && Contains(text, "nom:")
    ensures FirstPattern(text, FieldPatterns[0].1) == Some("nom:")
    ensures FirstPattern(text, FieldPatterns[1].1) == Some("prénom:")
  {
  }

  lemma FirstNameUpdates(paragraph: string)
    requires Contains(LabelText(paragraph), "prénom:") && Contains(LabelText(paragraph), "nom:")
    ensures FieldUpdate(paragraph, FieldPatterns[0].1) == Some(FieldValueAsWritten(paragraph, "nom:"))
    ensures FieldUpdate(paragraph, FieldPatterns[1].1) == Some(FieldValueAsWritten(paragraph, "prénom:"))
  {
    FirstNameLabels(LabelText(paragraph));
  }

  /** Labels match by substring, so a "Prénom:" line also fills `Nom`, with the
      value read after "nom:". */
  lemma FirstNameLabelAlsoSetsName(record: StudentRecord, paragraph: string)
    requires Contains(LabelText(paragraph), "prénom:")
    ensures var r := MatchFields(record, paragraph, FieldPatterns);
      Contains(LabelText(paragraph), "nom:")
      && "Nom" in r && r["Nom"] == FieldValueAsWritten(paragraph, "nom:")
      && "Prénom" in r && r["Prénom"] == FieldValueAsWritten(paragraph, "prénom:")
  {
    var text := LabelText(paragraph);
    NameLabelInsideFirstNameLabel(text);
    FirstNameUpdates(paragraph);
    FieldPatternsDistinct();
    MatchedFieldsSet(record, paragraph, FieldPatterns);
    FieldNamesRequired();
  }

  /** The scanner keeps the original's reading: an indented "  Nom: Jean"
      fills `Nom` with "m: Jean". */
  lemma IndentedParagraphRead(paragraph: string)
    requires paragraph == "  Nom: Jean"
    ensures var r := MatchFields(map[], paragraph, FieldPatterns);
      "Nom" in r && r["Nom"] == "m: Jean"
  {
    IndentedLabelCounterexample(paragraph);
    assert FirstPattern(LabelText(paragraph), FieldPatterns[0].1) == Some("nom:");
    FieldPatternsDistinct();
    MatchedFieldsSet(map[], paragraph, FieldPatterns);
    FieldNamesRequired();
  }

  /** The scanner state: the students emitted so far and the record being filled. */
  datatype TextScan = TextScan(students: seq<StudentRecord>, current: StudentRecord)

  /** One paragraph under a label table: a blank one emits the current record
      and starts a new one when the current record is complete, and otherwise
      changes nothing; any other paragraph fills in the fields whose labels it
      contains. */
  function TextStep(st: TextScan, paragraph: string, fields: seq<(string, seq<string>)>): TextScan {
    if LabelText(paragraph) == [] then
      if IsStudentComplete(st.current) then TextScan(st.students + [st.current], map[]) else st
    else st.(current := MatchFields(st.current, paragraph, fields))
  }

  function ScanParagraphs(paragraphs: seq<string>, fields: seq<(string, seq<string>)>): TextScan {
    if paragraphs == [] then TextScan([], map[])
    else TextStep(ScanParagraphs(paragraphs[..|paragraphs| - 1], fields), paragraphs[|paragraphs| - 1], fields)
  }

  /** The students emitted at blank paragraphs, then the last record if it is complete. */
  function TextStudents(paragraphs: seq<string>, fields: seq<(string, seq<string>)>): seq<StudentRecord> {
    var st := ScanParagraphs(paragraphs, fields);
    if IsStudentComplete(st.current) then st.students + [st.current] else st.students
  }

  /** The students of the free text, read with the six fields' labels. */
  function WordText(paragraphs: seq<string>): seq<StudentRecord> {
    TextStudents(paragraphs, FieldPatterns)
  }

  /** The field names of a label table. */
  function FieldNames(fields: seq<(string, seq<string>)>): (names: seq<string>)
    ensures |names| == |fields|
  {
    seq(|fields|, i requires 0 <= i < |fields| => fields[i].0)
  }

  /** Complete, with field names among `names` only. */
  ghost predicate RecordWithin(student: StudentRecord, names: seq<string>) {
    IsStudentComplete(student) && forall c :: c in student ==> c in names
  }

  /** What the free-text scanner keeps true of its state. */
  ghost predicate ScanOk(st: TextScan, names: seq<string>) {
    (forall i :: 0 <= i < |st.students| ==> RecordWithin(st.students[i], names))
    && forall c :: c in st.current ==> c in names
  }

  /** Matching labels adds only field names of the table. */
  lemma MatchFieldsKeys(record: StudentRecord, paragraph: string, fields: seq<(string, seq<string>)>)
    ensures forall c :: c in MatchFields(record, paragraph, fields) ==> c in record || c in FieldNames(fields)
  {
    OtherKeysKept(record, paragraph, fields);
    var m := MatchFields(record, paragraph, fields);
    forall c | c in m && c !in record ensures c in FieldNames(fields) {
      var i :| 0 <= i < |fields| && fields[i].0 == c;
      assert FieldNames(fields)[i] == c;
    }
  }

  lemma TextStepOk(st: TextScan, paragraph: string, fields: seq<(string, seq<string>)>)
    requires ScanOk(st, FieldNames(fields))
    ensures ScanOk(TextStep(st, paragraph, fields), FieldNames(fields))
  {
    var names := FieldNames(fields);
    if LabelText(paragraph) != [] {
      MatchFieldsKeys(st.current, paragraph, fields);
    } else if IsStudentComplete(st.current) {
      assert RecordWithin(st.current, names);
      var next := TextStep(st, paragraph, fields);
      assert next.students == st.students + [st.current];
      forall i | 0 <= i < |next.students| ensures RecordWithin(next.students[i], names) {
        if i < |st.students| {
          assert next.students[i] == st.students[i];
        }
      }
    }
  }

  lemma {:induction false} ScanParagraphsOk(paragraphs: seq<string>, fields: seq<(string, seq<string>)>)
    ensures ScanOk(ScanParagraphs(paragraphs, fields), FieldNames(fields))
  {
    if paragraphs != [] {
      ScanParagraphsOk(paragraphs[..|paragraphs| - 1], fields);
      TextStepOk(ScanParagraphs(paragraphs[..|paragraphs| - 1], fields), paragraphs[|paragraphs| - 1], fields);
    }
  }

  /** Every student read from free text is complete and carries only field names of the table. */
  lemma TextStudentsWithin(paragraphs: seq<string>, fields: seq<(string, seq<string>)>)
    ensures forall i :: 0 <= i < |TextStudents(paragraphs, fields)| ==>
      RecordWithin(TextStudents(paragraphs, fields)[i], FieldNames(fields))
  {
    var st := ScanParagraphs(paragraphs, fields);
    ScanParagraphsOk(paragraphs, fields);
    if IsStudentComplete(st.current) {
      assert RecordWithin(st.current, FieldNames(fields));
      var r := TextStudents(paragraphs, fields);
      forall i | 0 <= i < |r| ensures RecordWithin(r[i], FieldNames(fields)) {
        if i < |st.students| {
          assert r[i] == st.students[i];
        }
      }
    }
  }

  /** Only complete records are emitted, and the free text yields no field
      other than the six required ones. */
  ghost predicate TextRecordOk(student: StudentRecord) {
    RecordWithin(student, RequiredColumns)
  }

  /** Every student read from free text is complete and carries only required fields. */
  lemma WordTextSpec(paragraphs: seq<string>)
    ensures forall i :: 0 <= i < |WordText(paragraphs)| ==> TextRecordOk(WordText(paragraphs)[i])
  {
    TextStudentsWithin(paragraphs, FieldPatterns);
    FieldNamesRequired();
    assert FieldNames(FieldPatterns) == RequiredColumns;
  }

  /** A blank paragraph ends a complete record, which is emitted, and is
      ignored while the record is incomplete, so later paragraphs can still
      fill it in. */
  lemma BlankParagraph(st: TextScan, paragraph: string)
    requires forall k :: 0 <= k < |paragraph| ==> IsSpace(paragraph[k])
    ensures IsStudentComplete(st.current) ==> TextStep(st, paragraph, FieldPatterns) == TextScan(st.students + [st.current], map[])
    ensures !IsStudentComplete(st.current) ==> TextStep(st, paragraph, FieldPatterns) == st
  {
    StripEmpty(paragraph);
  }

  /** The first label of the list that occurs in the text (the inner loop over labels). */
  method FindLabel(text: string, patterns: seq<string>) returns (m: Option<string>)
    ensures m == FirstPattern(text, patterns)
  {
    var j := 0;
    while j < |patterns|
      invariant 0 <= j <= |patterns|
      invariant FirstPattern(text, patterns) == FirstPattern(text, patterns[j..])
    {
      if Contains(text, patterns[j]) {
        return Some(patterns[j]);
      }
      assert patterns[j..][1..] == patterns[j + 1..];
      j := j + 1;
    }
    return None;
  }

  /** The value one field receives from a paragraph whose label text is `text`
      (one pass of the loop over the label table). */
  method ReadField(paragraph: string, text: string, patterns: seq<string>) returns (v: Option<string>)
    requires text == LabelText(paragraph)
    ensures v == FieldUpdate(paragraph, patterns)
  {
    var m := FindLabel(text, patterns);
    if m.Some? {
      var start := Find(text, m.value) + |m.value|;
      assert start == ValueStart(paragraph, m.value);
      v := Some(Strip(paragraph[start..]));
    } else {
      v := None;
    }
  }

  /** Fills in the fields whose labels occur in a non-blank paragraph (the
      loop over the label table). */
  method MatchParagraph(current: StudentRecord, paragraph: string, fields: seq<(string, seq<string>)>)
    returns (r: StudentRecord)
    ensures r == MatchFields(current, paragraph, fields)
  {
    var text := Lower(Strip(paragraph));
    r := current;
    var i := 0;
    while i < |fields|
      invariant 0 <= i <= |fields|
      invariant r == MatchFields(current, paragraph, fields[..i])
    {
      var field := fields[i];
      assert fields[..i + 1][..i] == fields[..i];
      MatchFieldsLast(current, paragraph, fields[..i + 1]);
      var v := ReadField(paragraph, text, field.1);
      if v.Some? {
        r := r[field.0 := v.value];
      }
      i := i + 1;
    }
    assert fields[..i] == fields;
  }

  /** `_parse_word_text`: blank paragraphs close complete records, the others
      fill in the fields whose labels they contain. */
  method ParseWordText(paragraphs: seq<string>) returns (students: seq<StudentRecord>)
    ensures students == WordText(paragraphs)
  {
    students := [];
    var current: StudentRecord := map[];
    var i := 0;
    while i < |paragraphs|
      invariant 0 <= i <= |paragraphs|
      invariant TextScan(students, current) == ScanParagraphs(paragraphs[..i], FieldPatterns)
    {
      assert paragraphs[..i + 1][..i] == paragraphs[..i];
      var text := Lower(Strip(paragraphs[i]));
      if text == [] {
        if IsStudentComplete(current) {
          students := students + [current];
          current := map[];
        }
      } else {
        current := MatchParagraph(current, paragraphs[i], FieldPatterns);
      }
      i := i + 1;
    }
    assert paragraphs[..i] == paragraphs;
    if IsStudentComplete(current) {
      students := students + [current];
    }
  }

  // ---------------------------------------------------------------------------
  // Validation report

  datatype ValidationReport = ValidationReport(
    totalStudents: nat,
    validStudents: nat,
    warnings: seq<string>,
    errors: seq<string>)

  /** "Étudiant <n> (<Nom> <Prénom>)", with "N/A" for an absent field. */
  function StudentLabel(index: nat, student: StudentRecord): string {
    "Étudiant " + NatToDecimal(index + 1) + " ("
    + GetOr(student, "Nom", "N/A") + " " + GetOr(student, "Prénom", "N/A") + ")"
  }

  /** The heading of every student's messages, in order. */
  function Headings(students: seq<StudentRecord>): (h: seq<string>)
    ensures |h| == |students|
  {
    seq(|students|, i requires 0 <= i < |students| => StudentLabel(i, students[i]))
  }

  /** The three texts that follow a student's heading in the report. */
  datatype Notices = Notices(nameMissing: string, programmeMissing: string, careerMissing: string)

  /** The texts of `validate_student_data`. */
  function ReportNotices(): Notices {
    Notices(": Nom manquant", ": Filière Actuelle manquante", ": Carrière Envisagée manquante")
  }

  /** Which of the three checked fields of a student are blank (absent, or
      only spaces). */
  datatype Blanks = Blanks(name: bool, programme: bool, career: bool) {
    /** Neither the name nor the current programme is blank. */
    predicate Complete() {
      !name && !programme
    }
  }

  function StudentBlanks(student: StudentRecord): (b: Blanks)
    ensures b.Complete() <==> IsStudentComplete(student)
    ensures b.career <==> IsBlank(student, "Carrière Envisagée")
  {
    Blanks(IsBlank(student, "Nom"), IsBlank(student, "Filière Actuelle"), IsBlank(student, "Carrière Envisagée"))
  }

  /** The blank fields of every student, in order. */
  function Blankness(students: seq<StudentRecord>): (b: seq<Blanks>)
    ensures |b| == |students|
    ensures forall i :: 0 <= i < |students| ==> b[i] == StudentBlanks(students[i])
  {
    seq(|students|, i requires 0 <= i < |students| => StudentBlanks(students[i]))
  }

  /** One student under its heading: an error for a blank name, else an error
      for a blank programme, else valid, with a warning when the intended
      career is blank. */
  function CheckBlanks(report: ValidationReport, heading: string, b: Blanks, notices: Notices)
    : ValidationReport
  {
    if b.name then
      report.(errors := report.errors + [heading + notices.nameMissing])
    else if b.programme then
      report.(errors := report.errors + [heading + notices.programmeMissing])
    else
      var r := if b.career
        then report.(warnings := report.warnings + [heading + notices.careerMissing])
        else report;
      r.(validStudents := r.validStudents + 1)
  }

  function CheckStudent(report: ValidationReport, heading: string, student: StudentRecord, notices: Notices)
    : ValidationReport
  {
    CheckBlanks(report, heading, StudentBlanks(student), notices)
  }

  /** The report after the first `n` students, each under its heading. */
  function ValidationUpTo(blanks: seq<Blanks>, headings: seq<string>, n: nat, notices: Notices)
    : ValidationReport
    requires n <= |blanks| == |headings|
  {
    if n == 0 then ValidationReport(|blanks|, 0, [], [])
    else CheckBlanks(ValidationUpTo(blanks, headings, n - 1, notices), headings[n - 1], blanks[n - 1], notices)
  }

  function Validation(students: seq<StudentRecord>): ValidationReport {
    ValidationUpTo(Blankness(students), Headings(students), |students|, ReportNotices())
  }

  /** How many of the first `n` students are complete. */
  function CountComplete(blanks: seq<Blanks>, n: nat): (c: nat)
    requires n <= |blanks|
    ensures c <= n
  {
    if n == 0 then 0
    else CountComplete(blanks, n - 1) + (if blanks[n - 1].Complete() then 1 else 0)
  }

  /** How many of the first `n` students are complete but have no intended career. */
  function CountCareerMissing(blanks: seq<Blanks>, n: nat): (c: nat)
    requires n <= |blanks|
    ensures c <= n
  {
    if n == 0 then 0
    else CountCareerMissing(blanks, n - 1) + (if blanks[n - 1].Complete() && blanks[n - 1].career then 1 else 0)
  }

  /** The counts of the report, whatever the headings: the valid students are
      the complete ones, every other student has exactly one error, and the
      warnings are the complete students without an intended career. */
  lemma {:induction false} ValidationCounts(blanks: seq<Blanks>, headings: seq<string>, n: nat, notices: Notices)
    requires n <= |blanks| == |headings|
    ensures var r := ValidationUpTo(blanks, headings, n, notices);
      r.totalStudents == |blanks|
      && r.validStudents == CountComplete(blanks, n)
      && |r.errors| == n - CountComplete(blanks, n)
      && |r.warnings| == CountCareerMissing(blanks, n)
      && CountCareerMissing(blanks, n) <= CountComplete(blanks, n)
  {
    if n > 0 {
      ValidationCounts(blanks, headings, n - 1, notices);
    }
  }

  /** Valid students and errors add up to the total, the valid students are
      the complete ones, and there are no more warnings than valid students. */
  lemma ValidationSpec(students: seq<StudentRecord>)
    ensures var r := Validation(students);
      r.validStudents + |r.errors| == r.totalStudents == |students|
      && r.validStudents == CountComplete(Blankness(students), |students|)
      && |r.warnings| == CountCareerMissing(Blankness(students), |students|)
      && |r.warnings| <= r.validStudents
  {
    ValidationCounts(Blankness(students), Headings(students), |students|, ReportNotices());
  }

  /** The checks on one student (the body of the loop of `validate_student_data`). */
  method CheckOne(report: ValidationReport, index: nat, student: StudentRecord) returns (r: ValidationReport)
    ensures r == CheckStudent(report, StudentLabel(index, student), student, ReportNotices())
  {
    var heading := StudentLabel(index, student);
    r := report;
    if Strip(GetOr(student, "Nom", "")) == "" {
      r := r.(errors := r.errors + [heading + ": Nom manquant"]);
    } else if Strip(GetOr(student, "Filière Actuelle", "")) == "" {
      r := r.(errors := r.errors + [heading + ": Filière Actuelle manquante"]);
    } else {
      if Strip(GetOr(student, "Carrière Envisagée", "")) == "" {
        r := r.(warnings := r.warnings + [heading + ": Carrière Envisagée manquante"]);
      }
      r := r.(validStudents := r.validStudents + 1);
    }
  }

  /** `validate_student_data`. */
  method ValidateStudentData(students: seq<StudentRecord>) returns (report: ValidationReport)
    ensures report == Validation(students)
    ensures report.validStudents + |report.errors| == report.totalStudents == |students|
  {
    report := ValidationReport(|students|, 0, [], []);
    var i := 0;
    while i < |students|
      invariant 0 <= i <= |students|
      invariant report == ValidationUpTo(Blankness(students), Headings(students), i, ReportNotices())
    {
      report := CheckOne(report, i, students[i]);
      assert Blankness(students)[i] == StudentBlanks(students[i]);
      i := i + 1;
    }
    ValidationSpec(students);
  }

  // ---------------------------------------------------------------------------
  // Dispatch on the file extension

  /** The lower-cased text after the last '.' of the file name (the whole
      name when it has no '.'). */
  function Extension(name: string): string {
    var parts := SplitOn(name, '.');
    Lower(parts[|parts| - 1])
  }

  /** A name of the form "<front>.<ext>", with no '.' in ext, has extension ext in lower case. */
  lemma ExtensionAfterLastDot(front: string, ext: string)
    requires forall k :: 0 <= k < |ext| ==> ext[k] != '.'
    ensures Extension(front + "." + ext) == Lower(ext)
  {
    SplitOnLast(front, '.', ext);
    assert front + "." + ext == front + ['.'] + ext;
  }

  /** A Word document: tables first; when they yield nobody, the free text. */
  function WordStudents(tables: seq<Table>, paragraphs: seq<string>): seq<StudentRecord> {
    var fromTables := if tables != [] then WordTables(tables) else [];
    if fromTables == [] then WordText(paragraphs) else fromTables
  }

  /** The students of an uploaded file: an Excel sheet gives what the
      spreadsheet reader produced, a Word document what its scanners read,
      any other extension (or a spreadsheet reader that raised) nobody. */
  function ParsedFile(name: string, sheet: Option<seq<StudentRecord>>, tables: seq<Table>, paragraphs: seq<string>)
    : seq<StudentRecord>
  {
    var ext := Extension(name);
    if ext == "xlsx" then (if sheet.Some? then sheet.value else [])
    else if ext == "docx" then WordStudents(tables, paragraphs)
    else []
  }

  /** Unsupported extensions give no students, and every student read from a
      Word document is complete and carries only required fields. */
  lemma ParsedFileSpec(name: string, sheet: Option<seq<StudentRecord>>, tables: seq<Table>, paragraphs: seq<string>)
    ensures Extension(name) != "xlsx" && Extension(name) != "docx" ==> ParsedFile(name, sheet, tables, paragraphs) == []
    ensures Extension(name) == "xlsx" && sheet.None? ==> ParsedFile(name, sheet, tables, paragraphs) == []
    ensures Extension(name) == "docx" ==>
              forall i :: 0 <= i < |ParsedFile(name, sheet, tables, paragraphs)| ==>
                TextRecordOk(ParsedFile(name, sheet, tables, paragraphs)[i])
  {
    if Extension(name) == "docx" {
      var r := ParsedFile(name, sheet, tables, paragraphs);
      WordTextSpec(paragraphs);
      WordTablesSpec(tables);
      forall i | 0 <= i < |r| ensures TextRecordOk(r[i]) {
        if tables != [] && WordTables(tables) != [] {
          assert TableRecordOk(r[i]);
        }
      }
    }
  }

  /** `_parse_word`: the tables first, the free text when they yield nobody. */
  method ParseWord(tables: seq<Table>, paragraphs: seq<string>) returns (students: seq<StudentRecord>)
    ensures students == WordStudents(tables, paragraphs)
  {
    students := [];
    if tables != [] {
      students := ParseWordTables(tables);
    }
    if students == [] {
      students := ParseWordText(paragraphs);
    }
  }

  /** `parse_file`: dispatch on the extension. */
  method ParseFile(name: string, sheet: Option<seq<StudentRecord>>, tables: seq<Table>, paragraphs: seq<string>)
    returns (students: seq<StudentRecord>)
    ensures students == ParsedFile(name, sheet, tables, paragraphs)
  {
    var ext := Extension(name);
    if ext == "xlsx" {
      students := if sheet.Some? then sheet.value else [];
    } else if ext == "docx" {
      students := ParseWord(tables, paragraphs);
    } else {
      students := [];
    }
  }

}
