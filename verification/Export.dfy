/** The submission pack: the export gate in front of a CSV rendering of the matrix. */
module Export {
  import opened Outcomes
  import opened Sequences
  import C = Compliance

  // ----- Printing -----

  predicate NeedsQuotes(v: string) {
    '"' in v || ',' in v || '\n' in v
  }

  function DoubleQuotes(v: string): string {
    if v == "" then "" else (if v[0] == '"' then "\"\"" else [v[0]]) + DoubleQuotes(v[1..])
  }

  function CsvEscape(v: string): string {
    if NeedsQuotes(v) then "\"" + DoubleQuotes(v) + "\"" else v
  }

  /** A record: its escaped fields joined with commas. */
  function Line(fields: seq<string>): string {
    if |fields| == 0 then ""
    else if |fields| == 1 then CsvEscape(fields[0])
    else CsvEscape(fields[0]) + "," + Line(fields[1..])
  }

  /** Lines joined with line feeds. */
  function JoinLines(lines: seq<string>): string {
    if |lines| == 0 then ""
    else if |lines| == 1 then lines[0]
    else lines[0] + ("\n" + JoinLines(lines[1..]))
  }

  const HEADER_TAIL := "risk" + "," + ("status" + "," + "evidenceDocId")
  const HEADER := "requirementId" + "," + ("category" + "," + ("owner" + "," + HEADER_TAIL))

  function RiskText(r: C.Risk): string {
    match r
    case Low => "low"
    case Medium => "medium"
    case High => "high"
    case Critical => "critical"
  }

  function StatusText(s: C.ItemStatus): string {
    match s
    case Missing => "missing"
    case Partial => "partial"
    case Satisfied => "satisfied"
    case Overridden => "overridden"
  }

  function Columns(i: C.Item): seq<string> {
    [i.requirementId, i.category, i.owner, RiskText(i.risk), StatusText(i.status),
     if i.evidenceDocId.Some? then i.evidenceDocId.value else ""]
  }

  function MatrixCsv(matrix: C.Matrix): string {
    JoinLines([HEADER] + Map(matrix.items, i => Line(Columns(i))))
  }

  // ----- The pack -----

  datatype Pack =
    | BlockedExport(blockingRequirementIds: seq<string>)
    | SubmissionPack(tenderId: string, matrixVersion: int, generatedAt: int, criticalGapsOverridden: seq<string>,
                     matrixCsv: string, openTasks: seq<C.Task>, itemCount: nat)

  function Build(matrix: C.Matrix, overridden: seq<string>, now: int): Pack {
    var gate := C.ExportGate(matrix, overridden);
    if !gate.allowed then BlockedExport(C.Ids(gate.blocking))
    else SubmissionPack(matrix.tenderId, matrix.version, now, overridden, MatrixCsv(matrix), C.DeriveTasks(matrix),
                        |matrix.items|)
  }

  // ----- A reader: section 2 of RFC 4180, with LF as the line break -----

  datatype Reading<T> = Malformed | Read(value: T, rest: string)

  /** The remainder of a quoted field, after its opening quote. */
  function ReadQuoted(s: string): (r: Reading<string>)
    ensures r.Read? ==> |r.rest| < |s|
  {
    if s == "" then Malformed
    else if s[0] != '"' then
      var tail := ReadQuoted(s[1..]);
      if tail.Malformed? then Malformed else Read([s[0]] + tail.value, tail.rest)
    else if |s| > 1 && s[1] == '"' then
      var tail := ReadQuoted(s[2..]);
      if tail.Malformed? then Malformed else Read("\"" + tail.value, tail.rest)
    else Read("", s[1..])
  }

  /** A field that is not quoted: it may not contain a quote. A lone CR is ordinary text. */
  function ReadPlain(s: string): (r: Reading<string>)
    ensures r.Read? ==> |r.rest| <= |s|
  {
    if s == "" || s[0] == ',' || s[0] == '\n' then Read("", s)
    else if s[0] == '"' then Malformed
    else
      var tail := ReadPlain(s[1..]);
      if tail.Malformed? then Malformed else Read([s[0]] + tail.value, tail.rest)
  }

  function ReadField(s: string): (r: Reading<string>)
    ensures r.Read? ==> |r.rest| <= |s|
  {
    if s != "" && s[0] == '"' then ReadQuoted(s[1..]) else ReadPlain(s)
  }

  function ReadRecord(s: string): (r: Reading<seq<string>>)
    ensures r.Read? ==> |r.rest| <= |s|
    decreases |s|
  {
    var field := ReadField(s);
    if field.Malformed? then Malformed
    else if field.rest == "" || field.rest[0] == '\n' then Read([field.value], field.rest)
    else if field.rest[0] != ',' then Malformed
    else
      var others := ReadRecord(field.rest[1..]);
      if others.Malformed? then Malformed else Read([field.value] + others.value, others.rest)
  }

  /** All records; a break after the last one is optional. */
  function ReadFile(s: string): Option<seq<seq<string>>>
    decreases |s|
  {
    var record := ReadRecord(s);
    if record.Malformed? then None
    else if |record.rest| <= 1 then Some([record.value])
    else
      var others := ReadFile(record.rest[1..]);
      if others.None? then None else Some([record.value] + others.value)
  }

  // ----- Reading undoes printing -----

  /** What may follow a complete field. */
  predicate Ends(t: string) {
    t == "" || t[0] == ',' || t[0] == '\n'
  }

  lemma {:induction false} QuotedRoundTrip(v: string, t: string)
    requires Ends(t)
    ensures ReadQuoted(DoubleQuotes(v) + "\"" + t) == Read(v, t)
  {
    var s := DoubleQuotes(v) + "\"" + t;
    if v == "" {
      assert s == "\"" + t;
      assert s[1..] == t;
    } else {
      QuotedRoundTrip(v[1..], t);
      var rest := DoubleQuotes(v[1..]) + "\"" + t;
      if v[0] == '"' {
        assert s == "\"\"" + rest;
        assert s[2..] == rest;
      } else {
        assert s == [v[0]] + rest;
        assert s[1..] == rest;
      }
      assert [v[0]] + v[1..] == v;
    }
  }

  lemma {:induction false} PlainRoundTrip(v: string, t: string)
    requires !NeedsQuotes(v) && Ends(t)
    ensures ReadPlain(v + t) == Read(v, t)
  {
    if v == "" {
      assert v + t == t;
    } else {
      PlainRoundTrip(v[1..], t);
      assert (v + t)[1..] == v[1..] + t;
      assert [v[0]] + v[1..] == v;
    }
  }

  lemma Reassociate(a: string, b: string, c: string, d: string)
    ensures a + b + c + d == a + (b + (c + d)) == a + (b + c + d)
  {}

  lemma OpensQuoted(s: string, inside: string)
    requires s == "\"" + inside
    ensures ReadField(s) == ReadQuoted(inside)
  {
    assert s[1..] == inside;
  }

  lemma OpensPlain(v: string, t: string)
    requires !NeedsQuotes(v) && Ends(t)
    ensures ReadField(v + t) == ReadPlain(v + t)
  {
    if v == "" {
      assert v + t == t;
    } else {
      assert (v + t)[0] == v[0];
    }
  }

  lemma FieldRoundTrip(v: string, t: string)
    requires Ends(t)
    ensures ReadField(CsvEscape(v) + t) == Read(v, t)
  {
    if NeedsQuotes(v) {
      QuotedRoundTrip(v, t);
      Reassociate("\"", DoubleQuotes(v), "\"", t);
      OpensQuoted(CsvEscape(v) + t, DoubleQuotes(v) + "\"" + t);
    } else {
      PlainRoundTrip(v, t);
      OpensPlain(v, t);
    }
  }

  /** A record followed by some text, nested to the right as the reader consumes it. */
  ghost function LineThen(fields: seq<string>, t: string): string
    requires fields != []
  {
    CsvEscape(fields[0]) + (if |fields| == 1 then t else "," + LineThen(fields[1..], t))
  }

  lemma {:induction false} LineThenIsLine(fields: seq<string>, t: string)
    requires fields != []
    ensures LineThen(fields, t) == Line(fields) + t
    decreases |fields|
  {
    if |fields| > 1 {
      LineThenIsLine(fields[1..], t);
      Reassociate(CsvEscape(fields[0]), ",", Line(fields[1..]), t);
    }
  }

  lemma ReadRecordStep(s: string, field: string, others: string, fields: seq<string>, t: string)
    requires ReadField(s) == Read(field, "," + others) && ReadRecord(others) == Read(fields, t)
    ensures ReadRecord(s) == Read([field] + fields, t)
  {
    assert ("," + others)[1..] == others;
  }

  lemma {:induction false} RecordRoundTrip(fields: seq<string>, t: string)
    requires fields != [] && (t == "" || t[0] == '\n')
    ensures ReadRecord(LineThen(fields, t)) == Read(fields, t)
    decreases |fields|
  {
    if |fields| == 1 {
      FieldRoundTrip(fields[0], t);
      assert [fields[0]] == fields;
    } else {
      var others := LineThen(fields[1..], t);
      FieldRoundTrip(fields[0], "," + others);
      RecordRoundTrip(fields[1..], t);
      ReadRecordStep(LineThen(fields, t), fields[0], others, fields[1..], t);
      assert [fields[0]] + fields[1..] == fields;
    }
  }

  ghost predicate Records(records: seq<seq<string>>) {
    records != [] && forall r :: r in records ==> |r| >= 2
  }

  ghost function FileText(records: seq<seq<string>>): string
    requires Records(records)
  {
    LineThen(records[0], if |records| == 1 then "" else "\n" + FileText(records[1..]))
  }

  lemma ReadFileStep(s: string, record: seq<string>, later: string, others: seq<seq<string>>)
    requires later != "" && ReadRecord(s) == Read(record, "\n" + later) && ReadFile(later) == Some(others)
    ensures ReadFile(s) == Some([record] + others)
  {
    assert ("\n" + later)[1..] == later;
  }

  lemma FileStep(record: seq<string>, later: string, others: seq<seq<string>>)
    requires record != [] && later != "" && ReadFile(later) == Some(others)
    ensures ReadFile(LineThen(record, "\n" + later)) == Some([record] + others)
  {
    RecordRoundTrip(record, "\n" + later);
    ReadFileStep(LineThen(record, "\n" + later), record, later, others);
  }

  /** Any list of records of two fields or more comes back unchanged. */
  lemma {:induction false} FileRoundTrip(records: seq<seq<string>>)
    requires Records(records)
    ensures ReadFile(FileText(records)) == Some(records)
    decreases |records|
  {
    if |records| == 1 {
      RecordRoundTrip(records[0], "");
      assert [records[0]] == records;
    } else {
      FileRoundTrip(records[1..]);
      FileStep(records[0], FileText(records[1..]), records[1..]);
      assert [records[0]] + records[1..] == records;
    }
  }

  ghost predicate Prints(lines: seq<string>, records: seq<seq<string>>) {
    |lines| == |records| && forall k :: 0 <= k < |records| ==> lines[k] == Line(records[k])
  }

  lemma {:induction false} FileTextIsLines(lines: seq<string>, records: seq<seq<string>>)
    requires Records(records) && Prints(lines, records)
    ensures FileText(records) == JoinLines(lines)
    decreases |records|
  {
    if |records| == 1 {
      LineThenIsLine(records[0], "");
      assert lines[0] + "" == lines[0];
    } else {
      var later := JoinLines(lines[1..]);
      FileTextIsLines(lines[1..], records[1..]);
      LineThenIsLine(records[0], "\n" + later);
    }
  }

  const HEADER_FIELDS := ["requirementId", "category", "owner", "risk", "status", "evidenceDocId"]

  lemma Unquoted(v: string)
    requires forall c :: c in v ==> 'A' <= c <= 'z'
    ensures CsvEscape(v) == v
  {}

  lemma HeaderTail()
    ensures Line(["risk", "status", "evidenceDocId"]) == HEADER_TAIL
  {
    Unquoted("risk");
    Unquoted("status");
    Unquoted("evidenceDocId");
    assert ["risk", "status", "evidenceDocId"][1..] == ["status", "evidenceDocId"];
    assert ["status", "evidenceDocId"][1..] == ["evidenceDocId"];
    assert Line(["status", "evidenceDocId"]) == "status" + "," + Line(["evidenceDocId"]);
  }

  lemma HeaderIsARecord()
    ensures Line(HEADER_FIELDS) == HEADER
  {
    Unquoted("requirementId");
    Unquoted("category");
    Unquoted("owner");
    HeaderTail();
    assert HEADER_FIELDS[1..] == ["category", "owner", "risk", "status", "evidenceDocId"];
    assert HEADER_FIELDS[1..][1..] == ["owner", "risk", "status", "evidenceDocId"];
    assert HEADER_FIELDS[1..][1..][1..] == ["risk", "status", "evidenceDocId"];
  }

  function MatrixRecords(matrix: C.Matrix): (r: seq<seq<string>>)
    ensures forall fields :: fields in r ==> |fields| == 6
  {
    [HEADER_FIELDS] + Map(matrix.items, Columns)
  }

  lemma PrintsCons(line: string, lines: seq<string>, record: seq<string>, records: seq<seq<string>>)
    requires line == Line(record) && Prints(lines, records)
    ensures Prints([line] + lines, [record] + records)
  {}

  lemma MatrixPrints(matrix: C.Matrix)
    ensures Prints([HEADER] + Map(matrix.items, i => Line(Columns(i))), MatrixRecords(matrix))
  {
    HeaderIsARecord();
    PrintsCons(HEADER, Map(matrix.items, i => Line(Columns(i))), HEADER_FIELDS, Map(matrix.items, Columns));
  }

  /** For arbitrary field text, reading the emitted file gives the header and every item's six columns, in order. */
  lemma MatrixCsvRoundTrip(matrix: C.Matrix)
    ensures ReadFile(MatrixCsv(matrix)) == Some(MatrixRecords(matrix))
  {
    MatrixPrints(matrix);
    FileTextIsLines([HEADER] + Map(matrix.items, i => Line(Columns(i))), MatrixRecords(matrix));
    FileRoundTrip(MatrixRecords(matrix));
  }

  lemma {:induction false} DoublingGrows(v: string)
    ensures |DoubleQuotes(v)| >= |v|
  {
    if v != "" {
      DoublingGrows(v[1..]);
    }
  }

  /** Fields are quoted exactly when they hold a quote, a comma or a line feed; a lone CR is not a reason. */
  lemma QuotedExactly(v: string)
    ensures CsvEscape(v) == v <==> '"' !in v && ',' !in v && '\n' !in v
  {
    if NeedsQuotes(v) {
      DoublingGrows(v);
    }
  }

  /** What an item has under a column's name. */
  function ValueOf(i: C.Item, column: string): string {
    match column
    case "requirementId" => i.requirementId
    case "category" => i.category
    case "owner" => i.owner
    case "risk" => RiskText(i.risk)
    case "status" => StatusText(i.status)
    case "evidenceDocId" => if i.evidenceDocId.Some? then i.evidenceDocId.value else ""
    case _ => ""
  }

  /** Every column holds what its header says. */
  lemma ColumnsMatchHeader(i: C.Item)
    ensures |Columns(i)| == |HEADER_FIELDS|
    ensures forall k :: 0 <= k < |HEADER_FIELDS| ==> Columns(i)[k] == ValueOf(i, HEADER_FIELDS[k])
  {}

  const RISKS := map["low" := C.Low, "medium" := C.Medium, "high" := C.High, "critical" := C.Critical]
  const STATUSES := map["missing" := C.Missing, "partial" := C.Partial, "satisfied" := C.Satisfied,
                        "overridden" := C.Overridden]

  /** Risks and statuses are printed by their names. */
  lemma NamesRead(r: C.Risk, t: C.ItemStatus)
    ensures RiskText(r) in RISKS && RISKS[RiskText(r)] == r
    ensures StatusText(t) in STATUSES && STATUSES[StatusText(t)] == t
  {}

  /** Two matrices print alike exactly when their items agree on the printed columns. */
  lemma MatrixCsvInjective(a: C.Matrix, b: C.Matrix)
    ensures MatrixCsv(a) == MatrixCsv(b) <==> Map(a.items, Columns) == Map(b.items, Columns)
  {
    MatrixCsvRoundTrip(a);
    MatrixCsvRoundTrip(b);
    assert MatrixRecords(a)[1..] == Map(a.items, Columns);
    assert MatrixRecords(b)[1..] == Map(b.items, Columns);
    if Map(a.items, Columns) == Map(b.items, Columns) {
      var lines := (i: C.Item) => Line(Columns(i));
      MapOfMap(a.items, Columns, Line, lines);
      MapOfMap(b.items, Columns, Line, lines);
      assert Map(a.items, i => Line(Columns(i))) == Map(a.items, lines);
      assert Map(b.items, i => Line(Columns(i))) == Map(b.items, lines);
    }
  }

  lemma RiskTextInjective(r: C.Risk, s: C.Risk)
    ensures RiskText(r) == RiskText(s) <==> r == s
  {
    assert RiskText(r)[0] == RiskText(s)[0] ==> r == s;
  }

  lemma StatusTextInjective(r: C.ItemStatus, s: C.ItemStatus)
    ensures StatusText(r) == StatusText(s) <==> r == s
  {
    assert StatusText(r)[0] == StatusText(s)[0] ==> r == s;
  }

  /** The columns determine the item but for its text, its due date and an empty evidence id. */
  lemma ColumnsDetermine(i: C.Item, j: C.Item)
    ensures Columns(i) == Columns(j) <==>
      && i.requirementId == j.requirementId && i.category == j.category && i.owner == j.owner
      && i.risk == j.risk && i.status == j.status
      && (i.evidenceDocId == j.evidenceDocId || {i.evidenceDocId, j.evidenceDocId} == {None, Some("")})
  {
    var p, q := Columns(i), Columns(j);
    assert p == q ==> p[0] == q[0] && p[1] == q[1] && p[2] == q[2] && p[3] == q[3] && p[4] == q[4] && p[5] == q[5];
    RiskTextInjective(i.risk, j.risk);
    StatusTextInjective(i.status, j.status);
  }

  /**
   End to end: a pack comes out exactly when every critical requirement is covered or overridden, and
   its CSV reads back as the whole matrix; otherwise the ids of the uncovered requirements come out.
   */
  lemma PackOrBlocked(tenderId: string, reqs: seq<C.Requirement>, vault: seq<C.EvidenceDoc>, now: int,
                      dueDate: Option<string>, previous: int, overridden: seq<string>, exportedAt: int)
    ensures var matrix := C.GenerateMatrix(tenderId, reqs, vault, now, dueDate, previous);
            var uncovered := Filter(reqs, r => C.Uncovered(r, vault, now, overridden));
            var pack := Build(matrix, overridden, exportedAt);
            && (pack.SubmissionPack? <==> uncovered == [])
            && (pack.BlockedExport? ==> pack.blockingRequirementIds == Map(uncovered, (r: C.Requirement) => r.id))
            && (pack.SubmissionPack? ==>
                  && ReadFile(pack.matrixCsv) == Some(MatrixRecords(matrix))
                  && pack.itemCount == |reqs| && pack.tenderId == tenderId && pack.matrixVersion == previous + 1
                  && pack.generatedAt == exportedAt && pack.criticalGapsOverridden == overridden
                  && pack.openTasks == C.DeriveTasks(matrix))
  {
    var matrix := C.GenerateMatrix(tenderId, reqs, vault, now, dueDate, previous);
    C.GateBlocksExactly(tenderId, reqs, vault, now, dueDate, previous, overridden);
    MatrixCsvRoundTrip(matrix);
  }
}
