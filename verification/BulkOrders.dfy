/**
 Bulk order import: reading the file into candidates and issues (bulkOrders.ts), accepting
 rows, and committing or rolling back the batch (`runBulkImport` in app.ts).
 */
module BulkOrders {
  import opened Prelude
  import opened Csv
  import opened CsvReturns

  datatype Field =
    | CustomerName | CustomerEmail | PickupLabel | PickupLat | PickupLng | DropoffLabel | DropoffLat | DropoffLng
    | PackageWeightKg | Priority | Amount | Currency | PromisedAt
    | DeliveryWindowStart | DeliveryNotes | ParcelCode | RecipientPin

  const REQUIRED: seq<Field> := [
    CustomerName, CustomerEmail, PickupLabel, PickupLat, PickupLng, DropoffLabel, DropoffLat, DropoffLng,
    PackageWeightKg, Priority, Amount, Currency, PromisedAt]

  datatype Candidate = Candidate(rowNumber: nat, fields: map<Field, string>)
  datatype Problem = MissingValue | InvalidValues | DuplicateParcelCode | OutsideServiceArea
  datatype Issue = Issue(row: nat, problem: Problem, field: Option<Field>)
  datatype ImportError = TooLarge | TooFewRows | TooManyRows | MissingColumns(fields: seq<Field>) | CommitFailed
  datatype Parsed = Parsed(candidates: seq<Candidate>, issues: seq<Issue>, totalRows: nat)
  datatype Result<T> = Ok(value: T) | Err(error: ImportError)

  type Columns = seq<Option<Field>>

  function CellAt(values: Row, column: nat): string {
    if column < |values| then values[column] else ""
  }

  /** The fields of a row, read column by column; a later column wins. */
  function FieldsOf(columns: Columns, values: Row, upTo: nat): map<Field, string>
    requires upTo <= |columns|
  {
    if upTo == 0 then map[]
    else
      var earlier := FieldsOf(columns, values, upTo - 1);
      match columns[upTo - 1]
      case Some(field) => earlier[field := CellAt(values, upTo - 1)]
      case None => earlier
  }

  predicate Missing(fields: map<Field, string>, field: Field) {
    field !in fields || Trim(fields[field]) == ""
  }

  predicate Complete(fields: map<Field, string>) {
    forall i :: 0 <= i < |REQUIRED| ==> !Missing(fields, REQUIRED[i])
  }

  /** The required field the source names: the first one missing. */
  predicate FirstMissing(fields: map<Field, string>, field: Field) {
    exists i :: 0 <= i < |REQUIRED| && REQUIRED[i] == field && Missing(fields, field)
                && forall j :: 0 <= j < i ==> !Missing(fields, REQUIRED[j])
  }

  method FindMissing(fields: map<Field, string>) returns (empty: Option<Field>)
    ensures empty.None? <==> Complete(fields)
    ensures empty.Some? ==> FirstMissing(fields, empty.value)
  {
    for i := 0 to |REQUIRED|
      invariant forall j :: 0 <= j < i ==> !Missing(fields, REQUIRED[j])
    {
      if REQUIRED[i] !in fields || Trim(fields[REQUIRED[i]]) == "" {
        return Some(REQUIRED[i]);
      }
    }
    return None;
  }

  method ReadFields(columns: Columns, values: Row) returns (fields: map<Field, string>)
    ensures fields == FieldsOf(columns, values, |columns|)
  {
    fields := map[];
    for column := 0 to |columns|
      invariant fields == FieldsOf(columns, values, column)
    {
      if columns[column].Some? {
        fields := fields[columns[column].value := CellAt(values, column)];
      }
    }
  }

  function MapColumns(header: Row, fieldOf: string -> Option<Field>): (columns: Columns)
    ensures |columns| == |header| && forall k :: 0 <= k < |header| ==> columns[k] == fieldOf(header[k])
  {
    seq(|header|, i requires 0 <= i < |header| => fieldOf(header[i]))
  }

  ghost predicate CandidateOk(rows: seq<Row>, columns: Columns, done: nat, c: Candidate) {
    && 2 <= c.rowNumber < done + 2 && done < |rows|
    && c.fields == FieldsOf(columns, rows[c.rowNumber - 1], |columns|) && Complete(c.fields)
  }

  ghost predicate IssueOk(rows: seq<Row>, columns: Columns, done: nat, issue: Issue) {
    && 2 <= issue.row < done + 2 && done < |rows| && issue.problem == MissingValue && issue.field.Some?
    && FirstMissing(FieldsOf(columns, rows[issue.row - 1], |columns|), issue.field.value)
  }

  /** After `done` data rows: each of them is one candidate or one issue, in file order. */
  ghost predicate Accounted(rows: seq<Row>, columns: Columns, parsed: Parsed, done: nat) {
    && done < |rows| && |parsed.candidates| + |parsed.issues| == done
    && (forall i :: 0 <= i < |parsed.candidates| ==> CandidateOk(rows, columns, done, parsed.candidates[i]))
    && (forall i :: 0 <= i < |parsed.issues| ==> IssueOk(rows, columns, done, parsed.issues[i]))
    && (forall i, j :: 0 <= i < j < |parsed.candidates| ==>
        parsed.candidates[i].rowNumber < parsed.candidates[j].rowNumber)
    && (forall i, j :: 0 <= i < j < |parsed.issues| ==> parsed.issues[i].row < parsed.issues[j].row)
  }

  lemma MoreDone(rows: seq<Row>, columns: Columns, done: nat)
    requires done + 1 < |rows|
    ensures forall c :: CandidateOk(rows, columns, done, c) ==> CandidateOk(rows, columns, done + 1, c)
    ensures forall issue :: IssueOk(rows, columns, done, issue) ==> IssueOk(rows, columns, done + 1, issue)
  {
  }

  lemma AddCandidate(rows: seq<Row>, columns: Columns, parsed: Parsed, done: nat, c: Candidate)
    requires Accounted(rows, columns, parsed, done) && done + 1 < |rows|
    requires CandidateOk(rows, columns, done + 1, c) && c.rowNumber == done + 2
    ensures Accounted(rows, columns, parsed.(candidates := parsed.candidates + [c]), done + 1)
  {
    MoreDone(rows, columns, done);
    forall i | 0 <= i < |parsed.candidates| ensures parsed.candidates[i].rowNumber < done + 2 {
      assert CandidateOk(rows, columns, done, parsed.candidates[i]);
    }
  }

  lemma AddIssue(rows: seq<Row>, columns: Columns, parsed: Parsed, done: nat, issue: Issue)
    requires Accounted(rows, columns, parsed, done) && done + 1 < |rows|
    requires IssueOk(rows, columns, done + 1, issue) && issue.row == done + 2
    ensures Accounted(rows, columns, parsed.(issues := parsed.issues + [issue]), done + 1)
  {
    MoreDone(rows, columns, done);
    forall i | 0 <= i < |parsed.issues| ensures parsed.issues[i].row < done + 2 {
      assert IssueOk(rows, columns, done, parsed.issues[i]);
    }
  }

  /** Column `k` is the last one that is mapped to the field. */
  predicate LastColumn(columns: Columns, k: nat, field: Field) {
    && k < |columns| && columns[k] == Some(field)
    && forall j :: k < j < |columns| ==> columns[j] != Some(field)
  }

  /** The fields are the cells of the row: a field is there if and only if some column is mapped to
      it, and holds the cell of the last such column, or "" where the row is too short. */
  ghost predicate HoldsCells(columns: Columns, row: Row, fields: map<Field, string>) {
    && (forall f :: f in fields <==> Some(f) in columns)
    && (forall f, k: nat :: LastColumn(columns, k, f) && f in fields ==>
          fields[f] == if k < |row| then row[k] else "")
  }

  lemma {:induction false} FieldsHoldCells(columns: Columns, row: Row, n: nat)
    requires n <= |columns|
    ensures HoldsCells(columns[..n], row, FieldsOf(columns, row, n))
  {
    if n > 0 {
      var earlier, now := columns[..n - 1], columns[..n];
      FieldsHoldCells(columns, row, n - 1);
      assert now == earlier + [columns[n - 1]];
      forall f, k: nat | LastColumn(now, k, f) && k < n - 1
        ensures LastColumn(earlier, k, f) && columns[n - 1] != Some(f)
      {
        assert now[n - 1] != Some(f);
      }
    }
  }

  /** The thirteen fields an order cannot do without. */
  predicate Needed(f: Field) {
    || f == CustomerName || f == CustomerEmail || f == PickupLabel || f == PickupLat || f == PickupLng
    || f == DropoffLabel || f == DropoffLat || f == DropoffLng || f == PackageWeightKg || f == Priority
    || f == Amount || f == Currency || f == PromisedAt
  }

  /** The needed fields, in the order in which the first missing one is looked for. */
  lemma RequiredAreNeeded(f: Field)
    ensures Needed(f) <==> f in REQUIRED
    ensures REQUIRED == [CustomerName, CustomerEmail, PickupLabel, PickupLat, PickupLng, DropoffLabel, DropoffLat,
                         DropoffLng, PackageWeightKg, Priority, Amount, Currency, PromisedAt]
  {
    assert REQUIRED[0] == CustomerName && REQUIRED[1] == CustomerEmail && REQUIRED[2] == PickupLabel;
    assert REQUIRED[3] == PickupLat && REQUIRED[4] == PickupLng && REQUIRED[5] == DropoffLabel;
    assert REQUIRED[6] == DropoffLat && REQUIRED[7] == DropoffLng && REQUIRED[8] == PackageWeightKg;
    assert REQUIRED[9] == Priority && REQUIRED[10] == Amount && REQUIRED[11] == Currency && REQUIRED[12] == PromisedAt;
  }

  /** A candidate is a row of the file whose needed cells are all more than space. */
  ghost predicate CandidateOfFile(rows: seq<Row>, columns: Columns, c: Candidate) {
    && 2 <= c.rowNumber <= |rows| && HoldsCells(columns, rows[c.rowNumber - 1], c.fields)
    && forall f :: Needed(f) ==> f in c.fields && !AllSpace(c.fields[f])
  }

  /** An issue names a needed field whose cell is only space, or that has no column. */
  ghost predicate IssueOfFile(rows: seq<Row>, columns: Columns, issue: Issue) {
    && 2 <= issue.row <= |rows| && issue.field.Some? && Needed(issue.field.value)
    && exists fields :: && HoldsCells(columns, rows[issue.row - 1], fields)
                        && (issue.field.value in fields ==> AllSpace(fields[issue.field.value]))
  }

  lemma AccountedRowsHoldCells(rows: seq<Row>, columns: Columns, parsed: Parsed, done: nat)
    requires Accounted(rows, columns, parsed, done)
    ensures forall i :: 0 <= i < |parsed.candidates| ==> CandidateOfFile(rows, columns, parsed.candidates[i])
    ensures forall i :: 0 <= i < |parsed.issues| ==> IssueOfFile(rows, columns, parsed.issues[i])
  {
    forall i | 0 <= i < |parsed.candidates| ensures CandidateOfFile(rows, columns, parsed.candidates[i]) {
      CandidateHoldsCells(rows, columns, done, parsed.candidates[i]);
    }
    forall i | 0 <= i < |parsed.issues| ensures IssueOfFile(rows, columns, parsed.issues[i]) {
      IssueNamesBlank(rows, columns, done, parsed.issues[i]);
    }
  }

  lemma CandidateHoldsCells(rows: seq<Row>, columns: Columns, done: nat, c: Candidate)
    requires CandidateOk(rows, columns, done, c)
    ensures CandidateOfFile(rows, columns, c)
  {
    FieldsHoldCells(columns, rows[c.rowNumber - 1], |columns|);
    assert columns[..|columns|] == columns;
    forall f | Needed(f) ensures f in c.fields && !AllSpace(c.fields[f]) {
      RequiredAreNeeded(f);
      var i :| 0 <= i < |REQUIRED| && REQUIRED[i] == f;
      TrimIsEmpty(c.fields[f]);
    }
  }

  lemma IssueNamesBlank(rows: seq<Row>, columns: Columns, done: nat, issue: Issue)
    requires IssueOk(rows, columns, done, issue)
    ensures IssueOfFile(rows, columns, issue)
  {
    var fields := FieldsOf(columns, rows[issue.row - 1], |columns|);
    FieldsHoldCells(columns, rows[issue.row - 1], |columns|);
    assert columns[..|columns|] == columns;
    RequiredAreNeeded(issue.field.value);
    if issue.field.value in fields {
      TrimIsEmpty(fields[issue.field.value]);
    }
    assert HoldsCells(columns, rows[issue.row - 1], fields);
  }

  method ReadRows(rows: seq<Row>, columns: Columns) returns (parsed: Parsed)
    requires rows != []
    ensures parsed.totalRows == |rows| - 1 && Accounted(rows, columns, parsed, |rows| - 1)
    ensures forall i :: 0 <= i < |parsed.candidates| ==> CandidateOfFile(rows, columns, parsed.candidates[i])
    ensures forall i :: 0 <= i < |parsed.issues| ==> IssueOfFile(rows, columns, parsed.issues[i])
  {
    var candidates: seq<Candidate>, issues: seq<Issue> := [], [];
    for index := 0 to |rows| - 1
      invariant Accounted(rows, columns, Parsed(candidates, issues, |rows| - 1), index)
    {
      var rowNumber := index + 2;
      var fields := ReadFields(columns, rows[index + 1]);
      var empty := FindMissing(fields);
      ghost var before := Parsed(candidates, issues, |rows| - 1);
      if empty.Some? {
        AddIssue(rows, columns, before, index, Issue(rowNumber, MissingValue, empty));
        issues := issues + [Issue(rowNumber, MissingValue, empty)];
      } else {
        AddCandidate(rows, columns, before, index, Candidate(rowNumber, fields));
        candidates := candidates + [Candidate(rowNumber, fields)];
      }
    }
    parsed := Parsed(candidates, issues, |rows| - 1);
    AccountedRowsHoldCells(rows, columns, parsed, |rows| - 1);
  }

  predicate AllMapped(columns: Columns) {
    forall i :: 0 <= i < |REQUIRED| ==> Some(REQUIRED[i]) in columns
  }

  /** The required fields no column maps to, among the first `n`. */
  function Unmapped(columns: Columns, n: nat): seq<Field>
    requires n <= |REQUIRED|
  {
    if n == 0 then []
    else Unmapped(columns, n - 1) + if Some(REQUIRED[n - 1]) in columns then [] else [REQUIRED[n - 1]]
  }

  lemma {:induction false} UnmappedAre(columns: Columns, n: nat)
    requires n <= |REQUIRED|
    ensures forall f :: f in Unmapped(columns, n) <==>
              (exists i :: 0 <= i < n && REQUIRED[i] == f) && Some(f) !in columns
  {
    if n > 0 {
      UnmappedAre(columns, n - 1);
    }
  }

  lemma NoneUnmapped(columns: Columns)
    ensures Unmapped(columns, |REQUIRED|) == [] <==> AllMapped(columns)
  {
    UnmappedAre(columns, |REQUIRED|);
    var missing := Unmapped(columns, |REQUIRED|);
    if missing != [] {
      assert missing[0] in missing;
    }
    if !AllMapped(columns) {
      var i :| 0 <= i < |REQUIRED| && Some(REQUIRED[i]) !in columns;
      assert REQUIRED[i] in missing;
    }
  }

  method FindUnmapped(columns: Columns) returns (missing: seq<Field>)
    ensures missing == Unmapped(columns, |REQUIRED|)
    ensures missing == [] <==> AllMapped(columns)
    ensures forall f :: f in missing <==> f in REQUIRED && Some(f) !in columns
  {
    missing := [];
    for i := 0 to |REQUIRED|
      invariant missing == Unmapped(columns, i)
    {
      if Some(REQUIRED[i]) !in columns {
        missing := missing + [REQUIRED[i]];
      }
    }
    NoneUnmapped(columns);
    UnmappedAre(columns, |REQUIRED|);
  }

  /** Why a file is refused, if it is: the first check it fails. */
  function FileProblem(csv: string, fieldOf: string -> Option<Field>): Option<ImportError> {
    if |csv| > 100_000 then Some(TooLarge)
    else if |Parse(csv)| < 2 then Some(TooFewRows)
    else if |Parse(csv)| > 201 then Some(TooManyRows)
    else
      var missing := Unmapped(MapColumns(Parse(csv)[0], fieldOf), |REQUIRED|);
      if missing != [] then Some(MissingColumns(missing)) else None
  }

  /** `fieldOf` is the header normalisation and alias table. A refused file gets the error of the
      first check it fails. Every data row of an accepted file becomes exactly one candidate
      (complete) or one issue (naming its first missing field). */
  method ParseBulkOrderCsv(csv: string, fieldOf: string -> Option<Field>) returns (r: Result<Parsed>)
    ensures r.Ok? <==> FileProblem(csv, fieldOf).None?
    ensures r.Err? ==> FileProblem(csv, fieldOf) == Some(r.error)
    ensures r.Ok? ==> 2 <= |Parse(csv)| <= 201 && AllMapped(MapColumns(Parse(csv)[0], fieldOf))
    ensures r.Ok? ==> r.value.totalRows == |Parse(csv)| - 1
                      && Accounted(Parse(csv), MapColumns(Parse(csv)[0], fieldOf), r.value, r.value.totalRows)
    ensures r.Ok? ==> forall i :: 0 <= i < |r.value.candidates| ==>
              CandidateOfFile(Parse(csv), MapColumns(Parse(csv)[0], fieldOf), r.value.candidates[i])
    ensures r.Err? <==> FileProblem(csv, fieldOf).Some?
    ensures |csv| > 100_000 <==> r == Err(TooLarge)
    ensures |csv| <= 100_000 && |Parse(csv)| < 2 <==> r == Err(TooFewRows)
    ensures |csv| <= 100_000 && |Parse(csv)| > 201 <==> r == Err(TooManyRows)
  {
    if |csv| > 100_000 {
      return Err(TooLarge);
    }
    var rows := ParseCsv(csv);
    if |rows| < 2 {
      return Err(TooFewRows);
    }
    if |rows| > 201 {
      return Err(TooManyRows);
    }
    var columns := MapColumns(rows[0], fieldOf);
    var missing := FindUnmapped(columns);
    if missing != [] {
      return Err(MissingColumns(missing));
    }
    var parsed := ReadRows(rows, columns);
    r := Ok(parsed);
  }

  // ---------------------------------------------------------------------------
  // Acceptance
  // ---------------------------------------------------------------------------

  /** What the order schema makes of a candidate. */
  datatype Input = Input(parcelCode: Option<string>, details: map<Field, string>)
  datatype Accepted = Accepted(input: Input, row: nat)

  function Codes(accepted: seq<Accepted>): set<string> {
    set i | 0 <= i < |accepted| && accepted[i].input.parcelCode.Some? :: accepted[i].input.parcelCode.value
  }

  /** Why a row is turned down, if it is: the first of the three checks that it fails. `codes`
      are the parcel codes already taken. */
  function Verdict(validate: Candidate -> Option<Input>, served: Input -> bool, codes: set<string>,
                   c: Candidate): Option<Issue> {
    match validate(c)
    case None => Some(Issue(c.rowNumber, InvalidValues, None))
    case Some(input) =>
      if input.parcelCode.Some? && input.parcelCode.value in codes then
        Some(Issue(c.rowNumber, DuplicateParcelCode, Some(ParcelCode)))
      else if !served(input) then Some(Issue(c.rowNumber, OutsideServiceArea, None))
      else None
  }

  datatype Batch = Batch(accepted: seq<Accepted>, issues: seq<Issue>)

  /** The first `n` candidates, judged in file order against the codes taken so far. */
  function Judge(validate: Candidate -> Option<Input>, served: Input -> bool, known: set<string>,
                 candidates: seq<Candidate>, n: nat): Batch
    requires n <= |candidates|
  {
    if n == 0 then Batch([], [])
    else
      var before := Judge(validate, served, known, candidates, n - 1);
      var c := candidates[n - 1];
      match Verdict(validate, served, known + Codes(before.accepted), c)
      case Some(issue) => before.(issues := before.issues + [issue])
      case None => before.(accepted := before.accepted + [Accepted(validate(c).value, c.rowNumber)])
  }

  method AcceptRows(parsed: Parsed, known: set<string>, validate: Candidate -> Option<Input>, served: Input -> bool)
    returns (accepted: seq<Accepted>, issues: seq<Issue>)
    ensures var batch := Judge(validate, served, known, parsed.candidates, |parsed.candidates|);
            accepted == batch.accepted && issues == parsed.issues + batch.issues
  {
    accepted, issues := [], parsed.issues;
    var codes := known;
    for k := 0 to |parsed.candidates|
      invariant codes == known + Codes(accepted)
      invariant var batch := Judge(validate, served, known, parsed.candidates, k);
                accepted == batch.accepted && issues == parsed.issues + batch.issues
    {
      var candidate := parsed.candidates[k];
      var validated := validate(candidate);
      if validated.None? {
        issues := issues + [Issue(candidate.rowNumber, InvalidValues, None)];
        continue;
      }
      var input := validated.value;
      if input.parcelCode.Some? && input.parcelCode.value in codes {
        issues := issues + [Issue(candidate.rowNumber, DuplicateParcelCode, Some(ParcelCode))];
        continue;
      }
      if !served(input) {
        issues := issues + [Issue(candidate.rowNumber, OutsideServiceArea, None)];
        continue;
      }
      if input.parcelCode.Some? {
        codes := codes + {input.parcelCode.value};
      }
      CodesExtend(accepted, Accepted(input, candidate.rowNumber));
      accepted := accepted + [Accepted(input, candidate.rowNumber)];
    }
  }

  lemma CodesExtend(accepted: seq<Accepted>, a: Accepted)
    ensures Codes(accepted + [a])
            == Codes(accepted) + if a.input.parcelCode.Some? then {a.input.parcelCode.value} else {}
  {
    var more := accepted + [a];
    forall i | 0 <= i < |accepted| ensures more[i] == accepted[i] {}
    assert more[|accepted|] == a;
  }

  ghost predicate FreshCodes(known: set<string>, accepted: seq<Accepted>) {
    forall i :: 0 <= i < |accepted| && accepted[i].input.parcelCode.Some? ==>
      && accepted[i].input.parcelCode.value !in known
      && forall j :: 0 <= j < i ==> accepted[j].input.parcelCode != accepted[i].input.parcelCode
  }

  /** Every candidate is accepted or turned down, never both; the accepted parcel codes differ
      from each other and from those already known; and every accepted row lies in the area. */
  lemma {:induction false} JudgeIsFair(validate: Candidate -> Option<Input>, served: Input -> bool, known: set<string>,
                                       candidates: seq<Candidate>, n: nat)
    requires n <= |candidates|
    ensures var batch := Judge(validate, served, known, candidates, n);
            && |batch.accepted| + |batch.issues| == n
            && FreshCodes(known, batch.accepted)
            && forall i :: 0 <= i < |batch.accepted| ==> served(batch.accepted[i].input)
  {
    if n > 0 {
      JudgeIsFair(validate, served, known, candidates, n - 1);
      var before := Judge(validate, served, known, candidates, n - 1).accepted;
      var after := Judge(validate, served, known, candidates, n).accepted;
      if after != before && after[|before|].input.parcelCode.Some? {
        assert after[|before|].input.parcelCode.value !in known + Codes(before);
      }
    }
  }

  lemma {:induction false} JudgeGrows(validate: Candidate -> Option<Input>, served: Input -> bool, known: set<string>,
                                      candidates: seq<Candidate>, k: nat, n: nat)
    requires k <= n <= |candidates|
    ensures var early := Judge(validate, served, known, candidates, k);
            var late := Judge(validate, served, known, candidates, n);
            early.accepted <= late.accepted && early.issues <= late.issues
  {
    if k < n {
      JudgeGrows(validate, served, known, candidates, k, n - 1);
    }
  }

  /** Which candidate became which: candidate `k` became the next accepted entry, with its own
      input and row, if it is valid, its parcel code is new to the store and to the rows accepted
      before it, and it is served; otherwise the next issue, with its own row. */
  lemma JudgeDecidesEach(validate: Candidate -> Option<Input>, served: Input -> bool, known: set<string>,
                         candidates: seq<Candidate>, k: nat, n: nat)
    requires k < n <= |candidates|
    ensures var batch := Judge(validate, served, known, candidates, n);
            var before := Judge(validate, served, known, candidates, k);
            && before.accepted <= batch.accepted && before.issues <= batch.issues
            && |before.accepted| + |before.issues| == k
    ensures var batch := Judge(validate, served, known, candidates, n);
            var before := Judge(validate, served, known, candidates, k);
            match Verdict(validate, served, known + Codes(before.accepted), candidates[k])
            case None =>
              && |before.accepted| < |batch.accepted| && validate(candidates[k]).Some?
              && batch.accepted[|before.accepted|] == Accepted(validate(candidates[k]).value, candidates[k].rowNumber)
            case Some(issue) =>
              && |before.issues| < |batch.issues|
              && batch.issues[|before.issues|] == issue && issue.row == candidates[k].rowNumber
  {
    JudgeIsFair(validate, served, known, candidates, k);
    JudgeGrows(validate, served, known, candidates, k, n);
    JudgeGrows(validate, served, known, candidates, k + 1, n);
    var before := Judge(validate, served, known, candidates, k);
    var next := Judge(validate, served, known, candidates, k + 1);
    match Verdict(validate, served, known + Codes(before.accepted), candidates[k])
    case None =>
      assert next.accepted == before.accepted + [Accepted(validate(candidates[k]).value, candidates[k].rowNumber)];
    case Some(issue) =>
      assert next.issues == before.issues + [issue];
  }

  /** The same in plain terms: candidate `k` is accepted if and only if it is valid, its parcel code,
      if it has one, is neither known nor that of a row accepted before it, and it is served. */
  lemma AcceptedExactly(validate: Candidate -> Option<Input>, served: Input -> bool, known: set<string>,
                        candidates: seq<Candidate>, k: nat)
    requires k < |candidates|
    ensures var before := Judge(validate, served, known, candidates, k).accepted;
            var after := Judge(validate, served, known, candidates, k + 1).accepted;
            var input := validate(candidates[k]);
            && (after != before <==>
                  && input.Some? && served(input.value)
                  && (input.value.parcelCode.Some? ==>
                        && input.value.parcelCode.value !in known
                        && forall i :: 0 <= i < |before| ==> before[i].input.parcelCode != input.value.parcelCode))
            && (after != before ==> after == before + [Accepted(input.value, candidates[k].rowNumber)])
            && (after == before ==>
                  Judge(validate, served, known, candidates, k + 1).issues
                  == Judge(validate, served, known, candidates, k).issues
                     + [if input.None? then Issue(candidates[k].rowNumber, InvalidValues, None)
                        else if input.value.parcelCode.Some?
                                && (input.value.parcelCode.value in known
                                    || exists i :: 0 <= i < |before|
                                                   && before[i].input.parcelCode == input.value.parcelCode)
                        then Issue(candidates[k].rowNumber, DuplicateParcelCode, Some(ParcelCode))
                        else Issue(candidates[k].rowNumber, OutsideServiceArea, None)])
  {
    var before := Judge(validate, served, known, candidates, k).accepted;
    var input := validate(candidates[k]);
    if input.Some? && input.value.parcelCode.Some? {
      assert input.value.parcelCode.value in Codes(before) <==>
               exists i :: 0 <= i < |before| && before[i].input.parcelCode == input.value.parcelCode;
    }
  }

  /** A file row cannot be both: with the row numbers increasing and as many entries as rows,
      every data row is accounted for exactly once. */
  lemma CandidatesAndIssuesAreDisjoint(rows: seq<Row>, columns: Columns, parsed: Parsed, done: nat, i: nat, j: nat)
    requires Accounted(rows, columns, parsed, done) && i < |parsed.candidates| && j < |parsed.issues|
    ensures parsed.candidates[i].rowNumber != parsed.issues[j].row
  {
    assert CandidateOk(rows, columns, done, parsed.candidates[i]);
    assert IssueOk(rows, columns, done, parsed.issues[j]);
  }

  // ---------------------------------------------------------------------------
  // Commit and roll-back
  // ---------------------------------------------------------------------------

  type OrderId = nat

  /** What can happen to the shared list of orders while a batch is being committed: the batch
      inserts its own orders, other requests insert and remove theirs. */
  datatype ListEvent = Created(id: OrderId) | OtherInserts(id: OrderId) | OtherRemoves(id: OrderId)

  /** Splice out the first occurrence, if any. */
  function RemoveFirst(orders: seq<OrderId>, id: OrderId): seq<OrderId> {
    if orders == [] then []
    else if orders[0] == id then orders[1..]
    else [orders[0]] + RemoveFirst(orders[1..], id)
  }

  function Apply(orders: seq<OrderId>, e: ListEvent): seq<OrderId> {
    match e
    case Created(id) => [id] + orders
    case OtherInserts(id) => [id] + orders
    case OtherRemoves(id) => RemoveFirst(orders, id)
  }

  function ApplyAll(orders: seq<OrderId>, events: seq<ListEvent>): seq<OrderId>
    decreases |events|
  {
    if events == [] then orders else ApplyAll(Apply(orders, events[0]), events[1..])
  }

  function CreatedBy(events: seq<ListEvent>): seq<OrderId> {
    if events == [] then []
    else (if events[0].Created? then [events[0].id] else []) + CreatedBy(events[1..])
  }

  function OthersOnly(events: seq<ListEvent>): seq<ListEvent> {
    if events == [] then []
    else (if events[0].Created? then [] else [events[0]]) + OthersOnly(events[1..])
  }

  function RemoveEach(orders: seq<OrderId>, created: seq<OrderId>): seq<OrderId>
    decreases |created|
  {
    if created == [] then orders else RemoveEach(RemoveFirst(orders, created[0]), created[1..])
  }

  class OrderList {
    var orders: seq<OrderId>

    constructor ()
      ensures orders == []
    {
      orders := [];
    }

    method Insert(id: OrderId)
      modifies this
      ensures orders == [id] + old(orders)
    {
      orders := [id] + orders;
    }

    /** What other requests do to the list during an await. */
    method OtherRequests(events: seq<ListEvent>)
      modifies this
      ensures orders == ApplyAll(old(orders), events)
    {
      for i := 0 to |events|
        invariant ApplyAll(orders, events[i..]) == ApplyAll(old(orders), events)
      {
        assert events[i..][1..] == events[i + 1..];
        orders := Apply(orders, events[i]);
      }
    }

    /** The catch branch of the import. */
    method RollBack(created: seq<OrderId>)
      modifies this
      ensures orders == RemoveEach(old(orders), created)
    {
      for i := 0 to |created|
        invariant RemoveEach(orders, created[i..]) == RemoveEach(old(orders), created)
      {
        assert created[i..][1..] == created[i + 1..];
        orders := RemoveFirst(orders, created[i]);
      }
    }
  }

  lemma {:induction false} RemoveCommutes(orders: seq<OrderId>, a: OrderId, b: OrderId)
    ensures RemoveFirst(RemoveFirst(orders, a), b) == RemoveFirst(RemoveFirst(orders, b), a)
  {
    if orders != [] {
      RemoveCommutes(orders[1..], a, b);
    }
  }

  lemma {:induction false} RemoveEachCommutes(orders: seq<OrderId>, a: OrderId, created: seq<OrderId>)
    ensures RemoveEach(RemoveFirst(orders, a), created) == RemoveFirst(RemoveEach(orders, created), a)
    decreases |created|
  {
    if created != [] {
      RemoveCommutes(orders, a, created[0]);
      RemoveEachCommutes(RemoveFirst(orders, created[0]), a, created[1..]);
    }
  }

  lemma {:induction false} InsertCommutes(orders: seq<OrderId>, id: OrderId, created: seq<OrderId>)
    requires id !in created
    ensures RemoveEach([id] + orders, created) == [id] + RemoveEach(orders, created)
    decreases |created|
  {
    if created != [] {
      assert ([id] + orders)[1..] == orders;
      InsertCommutes(RemoveFirst(orders, created[0]), id, created[1..]);
    }
  }

  /** New orders get ids nobody used: other requests neither create nor delete them. */
  ghost predicate BatchIsPrivate(events: seq<ListEvent>, created: seq<OrderId>) {
    forall i :: 0 <= i < |events| && !events[i].Created? ==> events[i].id !in created
  }

  /** A failed commit leaves the list as if the batch had never been there, whatever others
      inserted and removed in the meantime, and at whichever order it failed. */
  lemma FailedCommitLeavesNoTrace(orders: seq<OrderId>, events: seq<ListEvent>)
    requires BatchIsPrivate(events, CreatedBy(events))
    ensures RemoveEach(ApplyAll(orders, events), CreatedBy(events)) == ApplyAll(orders, OthersOnly(events))
  {
    assert CreatedBy(events) + [] == CreatedBy(events) && [] + CreatedBy(events) == CreatedBy(events);
    RollBackLeavesOthersWork(orders, events, []);
  }

  lemma {:induction false} RollBackLeavesOthersWork(orders: seq<OrderId>, events: seq<ListEvent>, pending: seq<OrderId>)
    requires BatchIsPrivate(events, CreatedBy(events) + pending)
    ensures RemoveEach(ApplyAll(orders, events), pending + CreatedBy(events))
            == ApplyAll(RemoveEach(orders, pending), OthersOnly(events))
    decreases |events|
  {
    if events == [] {
      assert pending + CreatedBy(events) == pending;
    } else {
      var e, rest := events[0], events[1..];
      assert BatchIsPrivate(rest, CreatedBy(rest) + pending) by {
        assert forall i :: 0 <= i < |rest| ==> rest[i] == events[i + 1];
      }
      if e.Created? {
        assert pending + CreatedBy(events) == (pending + [e.id]) + CreatedBy(rest);
        assert BatchIsPrivate(rest, CreatedBy(rest) + (pending + [e.id])) by {
          assert forall i :: 0 <= i < |rest| ==> rest[i] == events[i + 1];
        }
        RollBackLeavesOthersWork([e.id] + orders, rest, pending + [e.id]);
        RemovePendingThenNew(orders, pending, e.id);
        assert OthersOnly(events) == OthersOnly(rest);
      } else {
        assert CreatedBy(events) == CreatedBy(rest);
        assert e.id !in pending by { assert e == events[0] && e.id !in CreatedBy(events) + pending; }
        RollBackLeavesOthersWork(Apply(orders, e), rest, pending);
        OthersStepCommutes(orders, e, pending);
        OthersKeepEvent(events);
      }
    }
  }

  lemma OthersKeepEvent(events: seq<ListEvent>)
    requires events != [] && !events[0].Created?
    ensures forall orders ::
              ApplyAll(orders, OthersOnly(events)) == ApplyAll(Apply(orders, events[0]), OthersOnly(events[1..]))
  {
    assert OthersOnly(events) == [events[0]] + OthersOnly(events[1..]);
    assert OthersOnly(events)[1..] == OthersOnly(events[1..]);
  }

  lemma OthersStepCommutes(orders: seq<OrderId>, e: ListEvent, pending: seq<OrderId>)
    requires !e.Created? && e.id !in pending
    ensures RemoveEach(Apply(orders, e), pending) == Apply(RemoveEach(orders, pending), e)
  {
    if e.OtherInserts? {
      InsertCommutes(orders, e.id, pending);
    } else {
      RemoveEachCommutes(orders, e.id, pending);
    }
  }

  lemma RemovePendingThenNew(orders: seq<OrderId>, pending: seq<OrderId>, id: OrderId)
    ensures RemoveEach([id] + orders, pending + [id]) == RemoveEach(orders, pending)
    decreases |pending|
  {
    RemoveLastFirst([id] + orders, pending, id);
    assert ([id] + orders)[1..] == orders;
  }

  lemma {:induction false} RemoveLastFirst(orders: seq<OrderId>, pending: seq<OrderId>, id: OrderId)
    ensures RemoveEach(orders, pending + [id]) == RemoveEach(RemoveFirst(orders, id), pending)
    decreases |pending|
  {
    if pending == [] {
      assert pending + [id] == [id] && [id][1..] == [];
    } else {
      assert (pending + [id])[1..] == pending[1..] + [id];
      RemoveLastFirst(RemoveFirst(orders, pending[0]), pending[1..], id);
      RemoveCommutes(orders, pending[0], id);
    }
  }

  // ---------------------------------------------------------------------------
  // The whole import, with other requests at every await
  // ---------------------------------------------------------------------------

  lemma {:induction false} ApplyAllConcat(orders: seq<OrderId>, first: seq<ListEvent>, second: seq<ListEvent>)
    ensures ApplyAll(orders, first + second) == ApplyAll(ApplyAll(orders, first), second)
    decreases |first|
  {
    if first == [] {
      assert first + second == second;
    } else {
      assert (first + second)[1..] == first[1..] + second;
      ApplyAllConcat(Apply(orders, first[0]), first[1..], second);
    }
  }

  lemma {:induction false} CreatedConcat(first: seq<ListEvent>, second: seq<ListEvent>)
    ensures CreatedBy(first + second) == CreatedBy(first) + CreatedBy(second)
  {
    if first == [] {
      assert first + second == second;
    } else {
      assert (first + second)[1..] == first[1..] + second;
      CreatedConcat(first[1..], second);
      assert CreatedBy(first + second) == (if first[0].Created? then [first[0].id] else [])
          + CreatedBy(first[1..] + second);
    }
  }

  lemma {:induction false} OthersConcat(first: seq<ListEvent>, second: seq<ListEvent>)
    ensures OthersOnly(first + second) == OthersOnly(first) + OthersOnly(second)
  {
    if first == [] {
      assert first + second == second;
    } else {
      assert (first + second)[1..] == first[1..] + second;
      OthersConcat(first[1..], second);
      assert OthersOnly(first + second) == (if first[0].Created? then [] else [first[0]])
          + OthersOnly(first[1..] + second);
    }
  }

  /** Events of other requests that know nothing of the ids of a batch. */
  predicate Foreign(events: seq<ListEvent>, ids: seq<OrderId>) {
    forall i :: 0 <= i < |events| ==> !events[i].Created? && events[i].id !in ids
  }

  lemma {:induction false} ForeignParts(events: seq<ListEvent>, ids: seq<OrderId>)
    requires Foreign(events, ids)
    ensures CreatedBy(events) == [] && OthersOnly(events) == events
  {
    if events != [] {
      ForeignParts(events[1..], ids);
    }
  }

  /** Everything that happens to the list while the first `n` orders are committed: each order is
      inserted, and `others[k]` happen while order `k` is being persisted. */
  function Interleaved(ids: seq<OrderId>, others: seq<seq<ListEvent>>, n: nat): seq<ListEvent>
    requires n <= |ids| && n <= |others|
  {
    if n == 0 then [] else Interleaved(ids, others, n - 1) + ([Created(ids[n - 1])] + others[n - 1])
  }

  function OthersUpTo(others: seq<seq<ListEvent>>, n: nat): seq<ListEvent>
    requires n <= |others|
  {
    if n == 0 then [] else OthersUpTo(others, n - 1) + others[n - 1]
  }

  predicate AllForeign(others: seq<seq<ListEvent>>, ids: seq<OrderId>) {
    forall k :: 0 <= k < |others| ==> Foreign(others[k], ids)
  }

  lemma OneOrderParts(id: OrderId, others: seq<ListEvent>, ids: seq<OrderId>)
    requires Foreign(others, ids)
    ensures CreatedBy([Created(id)] + others) == [id] && OthersOnly([Created(id)] + others) == others
  {
    ForeignParts(others, ids);
    assert ([Created(id)] + others)[1..] == others;
  }

  lemma {:induction false} InterleavedParts(ids: seq<OrderId>, others: seq<seq<ListEvent>>, n: nat)
    requires n <= |ids| && n <= |others| && AllForeign(others, ids)
    ensures CreatedBy(Interleaved(ids, others, n)) == ids[..n]
    ensures OthersOnly(Interleaved(ids, others, n)) == OthersUpTo(others, n)
  {
    if n > 0 {
      var earlier, last := Interleaved(ids, others, n - 1), [Created(ids[n - 1])] + others[n - 1];
      InterleavedParts(ids, others, n - 1);
      OneOrderParts(ids[n - 1], others[n - 1], ids);
      CreatedConcat(earlier, last);
      OthersConcat(earlier, last);
      assert ids[..n] == ids[..n - 1] + [ids[n - 1]];
    }
  }

  lemma {:induction false} InterleavedIsPrivate(ids: seq<OrderId>, others: seq<seq<ListEvent>>, n: nat)
    requires n <= |ids| && n <= |others| && AllForeign(others, ids)
    ensures BatchIsPrivate(Interleaved(ids, others, n), ids)
  {
    if n > 0 {
      InterleavedIsPrivate(ids, others, n - 1);
    }
  }

  lemma OneMoreOrder(orders: seq<OrderId>, ids: seq<OrderId>, others: seq<seq<ListEvent>>, k: nat)
    requires k < |ids| && k < |others|
    ensures ApplyAll(orders, Interleaved(ids, others, k + 1))
            == ApplyAll([ids[k]] + ApplyAll(orders, Interleaved(ids, others, k)), others[k])
  {
    var last := [Created(ids[k])];
    ApplyAllConcat(orders, Interleaved(ids, others, k), last + others[k]);
    assert last + others[k] != [] && (last + others[k])[1..] == others[k];
  }

  lemma BatchIsUndone(orders: seq<OrderId>, ids: seq<OrderId>, others: seq<seq<ListEvent>>, n: nat)
    requires n <= |ids| && n <= |others| && AllForeign(others, ids)
    ensures RemoveEach(ApplyAll(orders, Interleaved(ids, others, n)), ids[..n])
            == ApplyAll(orders, OthersUpTo(others, n))
  {
    InterleavedParts(ids, others, n);
    InterleavedIsPrivate(ids, others, n);
    FailedCommitLeavesNoTrace(orders, Interleaved(ids, others, n));
  }

  /** With no other requests the committed batch stands in front of the list, its last order first. */
  lemma {:induction false} UndisturbedCommit(orders: seq<OrderId>, ids: seq<OrderId>, others: seq<seq<ListEvent>>,
                                             n: nat)
    requires n <= |ids| && n <= |others| && forall k :: 0 <= k < n ==> others[k] == []
    ensures ApplyAll(orders, Interleaved(ids, others, n)) == Reverse(ids[..n]) + orders
  {
    if n > 0 {
      UndisturbedCommit(orders, ids, others, n - 1);
      OneMoreOrder(orders, ids, others, n - 1);
      ReverseAppend(ids[..n - 1], ids[n - 1]);
      assert ids[..n] == ids[..n - 1] + [ids[n - 1]];
    }
  }

  predicate FailsBefore(failAt: Option<nat>, n: nat) { failAt.Some? && failAt.value < n }

  /** Order `k` is inserted, and other requests come in while it is persisted. */
  method InsertAndWait(list: OrderList, ghost before: seq<OrderId>, ids: seq<OrderId>, others: seq<seq<ListEvent>>,
                       k: nat)
    requires k < |ids| && k < |others| && list.orders == ApplyAll(before, Interleaved(ids, others, k))
    modifies list
    ensures list.orders == ApplyAll(before, Interleaved(ids, others, k + 1))
  {
    OneMoreOrder(before, ids, others, k);
    list.Insert(ids[k]);
    list.OtherRequests(others[k]);
  }

  /** The catch branch, with the first `n` orders inserted. */
  method Undo(list: OrderList, ghost before: seq<OrderId>, created: seq<OrderId>, ghost ids: seq<OrderId>,
              ghost others: seq<seq<ListEvent>>, ghost n: nat)
    requires n <= |ids| && n <= |others| && AllForeign(others, ids)
    requires created == ids[..n] && list.orders == ApplyAll(before, Interleaved(ids, others, n))
    modifies list
    ensures list.orders == ApplyAll(before, OthersUpTo(others, n))
  {
    BatchIsUndone(before, ids, others, n);
    list.RollBack(created);
  }

  /** The commit loop and its catch branch: one order at a time, its insertion followed by an await
      in which other requests do `others[k]`, after which the write may turn out to have failed. */
  method CommitBatch(list: OrderList, n: nat, ids: seq<OrderId>, others: seq<seq<ListEvent>>, failAt: Option<nat>)
    returns (failed: bool, created: seq<OrderId>)
    requires n <= |ids| && n <= |others| && AllForeign(others, ids)
    modifies list
    ensures failed <==> FailsBefore(failAt, n)
    ensures failed ==> list.orders == ApplyAll(old(list.orders), OthersUpTo(others, failAt.value + 1))
    ensures !failed ==> created == ids[..n] && list.orders == ApplyAll(old(list.orders), Interleaved(ids, others, n))
  {
    created := [];
    ghost var before := list.orders;
    for k := 0 to n
      invariant created == ids[..k] && list.orders == ApplyAll(before, Interleaved(ids, others, k))
      invariant failAt.Some? ==> failAt.value >= k
    {
      InsertAndWait(list, before, ids, others, k);
      created := created + [ids[k]];
      if failAt == Some(k) {
        Undo(list, before, created, ids, others, k + 1);
        return true, created;
      }
    }
    failed := false;
  }

  datatype Imported = Imported(created: seq<OrderId>, totalRows: nat, validRows: nat, issues: seq<Issue>)

  /** The batch and all the issues of a file. */
  function BatchOf(parsed: Parsed, known: set<string>, validate: Candidate -> Option<Input>,
                   served: Input -> bool): Batch {
    var batch := Judge(validate, served, known, parsed.candidates, |parsed.candidates|);
    batch.(issues := parsed.issues + batch.issues)
  }

  /** What the import answers, given the batch, and what it makes of the list of orders. */
  ghost predicate Outcome(r: Result<Imported>, before: seq<OrderId>, after: seq<OrderId>, batch: Batch, dryRun: bool,
                          ids: seq<OrderId>, others: seq<seq<ListEvent>>, failAt: Option<nat>) {
    var n := |batch.accepted|;
    var totalRows := n + |batch.issues|;
    && n <= |ids| && n <= |others|
    && if dryRun || batch.issues != [] then
         r == Ok(Imported([], totalRows, n, batch.issues)) && after == before
       else if FailsBefore(failAt, n) then
         r == Err(CommitFailed) && after == ApplyAll(before, OthersUpTo(others, failAt.value + 1))
       else
         r == Ok(Imported(ids[..n], totalRows, n, [])) && after == ApplyAll(before, Interleaved(ids, others, n))
  }

  /** From the rows of the file to the outcome. */
  method AcceptAndCommit(list: OrderList, parsed: Parsed, known: set<string>, validate: Candidate -> Option<Input>,
                         served: Input -> bool, dryRun: bool,
                         ids: seq<OrderId>, others: seq<seq<ListEvent>>, failAt: Option<nat>)
    returns (r: Result<Imported>)
    requires |parsed.candidates| + |parsed.issues| == parsed.totalRows
    requires |parsed.candidates| <= |ids| && |parsed.candidates| <= |others| && AllForeign(others, ids)
    modifies list
    ensures var batch := BatchOf(parsed, known, validate, served);
            && |batch.accepted| + |batch.issues| == parsed.totalRows
            && Outcome(r, old(list.orders), list.orders, batch, dryRun, ids, others, failAt)
  {
    var accepted, issues := AcceptRows(parsed, known, validate, served);
    JudgeIsFair(validate, served, known, parsed.candidates, |parsed.candidates|);
    if dryRun || issues != [] {
      return Ok(Imported([], parsed.totalRows, |accepted|, issues));
    }
    var failed, created := CommitBatch(list, |accepted|, ids, others, failAt);
    r := if failed then Err(CommitFailed) else Ok(Imported(created, parsed.totalRows, |accepted|, []));
  }

  /** The whole import, from the text. `ids` are the ids the new orders get; `others` is what other
      requests do to the list while the orders are persisted, one list per order; `failAt` is the
      order, if any, whose write fails. A refused file, a dry run and any issue leave the list
      as it was; a failed write leaves it as the other requests alone would have made it. */
  method RunBulkImport(list: OrderList, csv: string, fieldOf: string -> Option<Field>, known: set<string>,
                       validate: Candidate -> Option<Input>, served: Input -> bool, dryRun: bool,
                       ids: seq<OrderId>, others: seq<seq<ListEvent>>, failAt: Option<nat>)
    returns (r: Result<Imported>, ghost parsed: Parsed)
    requires |ids| >= 200 && |others| >= 200 && AllForeign(others, ids)
    modifies list
    ensures FileProblem(csv, fieldOf).Some? ==>
              r == Err(FileProblem(csv, fieldOf).value) && list.orders == old(list.orders)
    ensures FileProblem(csv, fieldOf).None? ==>
              var batch := BatchOf(parsed, known, validate, served);
              && 2 <= |Parse(csv)| <= 201 && |batch.accepted| + |batch.issues| == |Parse(csv)| - 1
              && Accounted(Parse(csv), MapColumns(Parse(csv)[0], fieldOf), parsed, |Parse(csv)| - 1)
              && Outcome(r, old(list.orders), list.orders, batch, dryRun, ids, others, failAt)
  {
    var file := ParseBulkOrderCsv(csv, fieldOf);
    if file.Err? {
      parsed := Parsed([], [], 0);
      return Err(file.error), parsed;
    }
    parsed := file.value;
    r := AcceptAndCommit(list, file.value, known, validate, served, dryRun, ids, others, failAt);
  }
}
