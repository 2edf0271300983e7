/** The payment settlement ledger (settlements.ts, memory mode). */
module Settlements {
  import opened Prelude
  import Csv

  datatype MatchStatus = Matched | MissingOrder | AmountMismatch | CurrencyMismatch | Refund | Chargeback
  datatype ReviewStatus = Pending | Accepted | Rejected

  /** A row; an absent note is the empty string. The provider is always the same one, so the
      provider reference alone identifies a row. */
  datatype SettlementRow = SettlementRow(id: string, providerRef: string, amount: real, currency: string,
                                         matchStatus: MatchStatus, reviewStatus: ReviewStatus,
                                         note: string, importedAt: int)

  const CAPACITY := 1_000

  // ---------------------------------------------------------------------------
  // Merging an import
  // ---------------------------------------------------------------------------

  /** A newer version of a row keeps the id, the review decision and any note of the older one. */
  function Refresh(previous: SettlementRow, row: SettlementRow): SettlementRow {
    row.(id := previous.id, reviewStatus := previous.reviewStatus,
         note := if previous.note != "" then previous.note else row.note)
  }

  /** Setting an entry of the reference map, which lists entries in the order first set. */
  function Upsert(rows: seq<SettlementRow>, row: SettlementRow): seq<SettlementRow> {
    if rows == [] then [row]
    else if rows[0].providerRef == row.providerRef then [Refresh(rows[0], row)] + rows[1..]
    else [rows[0]] + Upsert(rows[1..], row)
  }

  function UpsertAll(rows: seq<SettlementRow>, imported: seq<SettlementRow>): seq<SettlementRow>
    decreases |imported|
  {
    if imported == [] then rows else UpsertAll(Upsert(rows, imported[0]), imported[1..])
  }

  /** Stable sort, newest import first. */
  function Insert(row: SettlementRow, sorted: seq<SettlementRow>): seq<SettlementRow> {
    if sorted == [] || sorted[0].importedAt <= row.importedAt then [row] + sorted
    else [sorted[0]] + Insert(row, sorted[1..])
  }

  function NewestFirst(rows: seq<SettlementRow>): seq<SettlementRow> {
    if rows == [] then [] else Insert(rows[0], NewestFirst(rows[1..]))
  }

  function Cut(rows: seq<SettlementRow>): seq<SettlementRow> {
    if |rows| <= CAPACITY then rows else rows[..CAPACITY]
  }

  function Merge(rows: seq<SettlementRow>, imported: seq<SettlementRow>): seq<SettlementRow> {
    Cut(NewestFirst(UpsertAll(rows, imported)))
  }

  // ---------------------------------------------------------------------------
  // Review
  // ---------------------------------------------------------------------------

  function Reviewed(rows: seq<SettlementRow>, id: string, status: ReviewStatus, note: string): seq<SettlementRow> {
    if rows == [] then []
    else if rows[0].id == id then [rows[0].(reviewStatus := status, note := note)] + rows[1..]
    else [rows[0]] + Reviewed(rows[1..], id, status, note)
  }

  datatype LedgerEvent = Import(rows: seq<SettlementRow>) | Review(id: string, status: ReviewStatus, note: string)

  function LedgerStep(rows: seq<SettlementRow>, e: LedgerEvent): seq<SettlementRow> {
    match e
    case Import(imported) => Merge(rows, imported)
    case Review(id, status, note) => Reviewed(rows, id, status, note)
  }

  function LedgerRun(rows: seq<SettlementRow>, events: seq<LedgerEvent>): seq<SettlementRow>
    decreases |events|
  {
    if events == [] then rows else LedgerRun(LedgerStep(rows, events[0]), events[1..])
  }

  class Ledger {
    var memory: map<string, seq<SettlementRow>>

    constructor ()
      ensures memory == map[]
    {
      memory := map[];
    }

    function Rows(organizationId: string): seq<SettlementRow>
      reads this
    {
      if organizationId in memory then memory[organizationId] else []
    }

    method MergeRows(organizationId: string, imported: seq<SettlementRow>)
      modifies this
      ensures memory == old(memory)[organizationId := Merge(old(Rows(organizationId)), imported)]
    {
      var byRef := Rows(organizationId);
      for i := 0 to |imported|
        invariant UpsertAll(byRef, imported[i..]) == UpsertAll(Rows(organizationId), imported)
        invariant memory == old(memory)
      {
        assert imported[i..][1..] == imported[i + 1..];
        byRef := Upsert(byRef, imported[i]);
      }
      memory := memory[organizationId := Cut(NewestFirst(byRef))];
    }

    /** The note is stored trimmed; one that is absent or blank clears the old one. */
    method ReviewSettlement(organizationId: string, id: string, status: ReviewStatus, note: string)
        returns (found: bool)
      modifies this
      ensures found <==> exists i :: 0 <= i < |old(Rows(organizationId))| && old(Rows(organizationId))[i].id == id
      ensures !found ==> memory == old(memory)
      ensures found ==>
                memory == old(memory)[organizationId := Reviewed(old(Rows(organizationId)), id, status, Csv.Trim(note))]
    {
      var rows := Rows(organizationId);
      if i :| 0 <= i < |rows| && rows[i].id == id {
        found := true;
        memory := memory[organizationId := Reviewed(rows, id, status, Csv.Trim(note))];
      } else {
        found := false;
      }
    }
  }

  // ---------------------------------------------------------------------------
  // Invariant
  // ---------------------------------------------------------------------------

  predicate HasRef(rows: seq<SettlementRow>, providerRef: string) {
    exists i :: 0 <= i < |rows| && rows[i].providerRef == providerRef
  }

  predicate UniqueRefs(rows: seq<SettlementRow>) {
    forall i, j :: 0 <= i < j < |rows| ==> rows[i].providerRef != rows[j].providerRef
  }

  predicate Sorted(rows: seq<SettlementRow>) {
    forall i, j :: 0 <= i < j < |rows| ==> rows[i].importedAt >= rows[j].importedAt
  }

  predicate LedgerInv(rows: seq<SettlementRow>) {
    UniqueRefs(rows) && Sorted(rows) && |rows| <= CAPACITY
  }

  lemma ConsUnique(head: SettlementRow, tail: seq<SettlementRow>)
    ensures UniqueRefs([head] + tail) <==> !HasRef(tail, head.providerRef) && UniqueRefs(tail)
    ensures forall r :: HasRef([head] + tail, r) <==> head.providerRef == r || HasRef(tail, r)
  {
    var all := [head] + tail;
    assert forall i :: 0 <= i < |tail| ==> all[i + 1] == tail[i];
    forall r ensures HasRef(all, r) <==> head.providerRef == r || HasRef(tail, r) {
      if head.providerRef == r {
        assert all[0].providerRef == r;
      }
    }
    if HasRef(tail, head.providerRef) {
      var i :| 0 <= i < |tail| && tail[i].providerRef == head.providerRef;
      assert all[i + 1].providerRef == all[0].providerRef;
    }
  }

  lemma {:induction false} UpsertKeepsUnique(rows: seq<SettlementRow>, row: SettlementRow)
    requires UniqueRefs(rows)
    ensures UniqueRefs(Upsert(rows, row))
    ensures forall r :: HasRef(Upsert(rows, row), r) <==> HasRef(rows, r) || r == row.providerRef
  {
    if rows == [] {
      ConsUnique(row, []);
    } else {
      var head, tail := rows[0], rows[1..];
      assert rows == [head] + tail;
      ConsUnique(head, tail);
      if head.providerRef == row.providerRef {
        ConsUnique(Refresh(head, row), tail);
      } else {
        UpsertKeepsUnique(tail, row);
        ConsUnique(head, Upsert(tail, row));
      }
    }
  }

  lemma {:induction false} UpsertAllKeepsUnique(rows: seq<SettlementRow>, imported: seq<SettlementRow>)
    requires UniqueRefs(rows)
    ensures UniqueRefs(UpsertAll(rows, imported))
    decreases |imported|
  {
    if imported != [] {
      UpsertKeepsUnique(rows, imported[0]);
      UpsertAllKeepsUnique(Upsert(rows, imported[0]), imported[1..]);
    }
  }

  lemma {:induction false} InsertFacts(row: SettlementRow, sorted: seq<SettlementRow>)
    requires Sorted(sorted)
    ensures Sorted(Insert(row, sorted))
    ensures multiset(Insert(row, sorted)) == multiset{row} + multiset(sorted)
  {
    if !(sorted == [] || sorted[0].importedAt <= row.importedAt) {
      var tail := sorted[1..];
      assert sorted == [sorted[0]] + tail;
      InsertFacts(row, tail);
      InsertStaysBelow(row, tail, sorted[0].importedAt);
    }
  }

  lemma {:induction false} InsertStaysBelow(row: SettlementRow, sorted: seq<SettlementRow>, bound: int)
    requires row.importedAt <= bound && forall i :: 0 <= i < |sorted| ==> sorted[i].importedAt <= bound
    ensures forall i :: 0 <= i < |Insert(row, sorted)| ==> Insert(row, sorted)[i].importedAt <= bound
  {
    if sorted != [] {
      InsertStaysBelow(row, sorted[1..], bound);
    }
  }

  lemma {:induction false} SortFacts(rows: seq<SettlementRow>)
    ensures Sorted(NewestFirst(rows)) && multiset(NewestFirst(rows)) == multiset(rows)
  {
    if rows != [] {
      SortFacts(rows[1..]);
      InsertFacts(rows[0], NewestFirst(rows[1..]));
      assert rows == [rows[0]] + rows[1..];
    }
  }

  /** Having distinct references is a matter of how often each reference occurs. */
  function Refs(rows: seq<SettlementRow>): multiset<string> {
    if rows == [] then multiset{} else multiset{rows[0].providerRef} + Refs(rows[1..])
  }

  lemma {:induction false} RefsOfInsert(row: SettlementRow, sorted: seq<SettlementRow>)
    ensures Refs(Insert(row, sorted)) == multiset{row.providerRef} + Refs(sorted)
  {
    if sorted == [] || sorted[0].importedAt <= row.importedAt {
      assert ([row] + sorted)[1..] == sorted;
    } else {
      RefsOfInsert(row, sorted[1..]);
      assert ([sorted[0]] + Insert(row, sorted[1..]))[1..] == Insert(row, sorted[1..]);
    }
  }

  lemma {:induction false} RefsOfSort(rows: seq<SettlementRow>)
    ensures Refs(NewestFirst(rows)) == Refs(rows)
  {
    if rows != [] {
      RefsOfSort(rows[1..]);
      RefsOfInsert(rows[0], NewestFirst(rows[1..]));
    }
  }

  lemma {:induction false} UniqueMeansOnce(rows: seq<SettlementRow>)
    ensures UniqueRefs(rows) <==> forall r :: Refs(rows)[r] <= 1
    ensures forall r :: HasRef(rows, r) <==> Refs(rows)[r] >= 1
  {
    if rows != [] {
      UniqueMeansOnce(rows[1..]);
      assert rows == [rows[0]] + rows[1..];
      ConsUnique(rows[0], rows[1..]);
      if UniqueRefs(rows) {
        forall r ensures Refs(rows)[r] <= 1 {
          assert Refs(rows)[r] == Refs(rows[1..])[r] + if r == rows[0].providerRef then 1 else 0;
        }
      }
      if forall r :: Refs(rows)[r] <= 1 {
        forall r ensures Refs(rows[1..])[r] <= 1 {
          assert Refs(rows)[r] <= 1;
        }
        assert Refs(rows)[rows[0].providerRef] <= 1;
      }
    }
  }

  /** An import keeps one row per reference, newest first, at most a thousand. */
  lemma MergeKeepsInv(rows: seq<SettlementRow>, imported: seq<SettlementRow>)
    requires LedgerInv(rows)
    ensures LedgerInv(Merge(rows, imported)) && |Merge(rows, imported)| <= 1_000
  {
    var all := UpsertAll(rows, imported);
    UpsertAllKeepsUnique(rows, imported);
    SortFacts(all);
    RefsOfSort(all);
    UniqueMeansOnce(all);
    UniqueMeansOnce(NewestFirst(all));
  }

  predicate FirstWithId(rows: seq<SettlementRow>, id: string, i: nat) {
    i < |rows| && rows[i].id == id && forall j :: 0 <= j < i ==> rows[j].id != id
  }

  /** A review changes the decision and the note of the row with the id, and nothing else. */
  lemma {:induction false} ReviewTouchesOneRow(rows: seq<SettlementRow>, id: string, status: ReviewStatus, note: string)
    ensures |Reviewed(rows, id, status, note)| == |rows|
    ensures forall i :: 0 <= i < |rows| ==>
              Reviewed(rows, id, status, note)[i]
              == if FirstWithId(rows, id, i) then rows[i].(reviewStatus := status, note := note) else rows[i]
  {
    if rows != [] && rows[0].id != id {
      ReviewTouchesOneRow(rows[1..], id, status, note);
      assert Reviewed(rows, id, status, note) == [rows[0]] + Reviewed(rows[1..], id, status, note);
      forall i | 1 <= i < |rows| ensures FirstWithId(rows, id, i) <==> FirstWithId(rows[1..], id, i - 1) {
        if FirstWithId(rows[1..], id, i - 1) {
          assert forall j :: 1 <= j < i ==> rows[j] == rows[1..][j - 1];
        }
      }
    }
  }

  /** Over any sequence of imports and reviews. */
  lemma {:induction false} LedgerStaysSound(rows: seq<SettlementRow>, events: seq<LedgerEvent>)
    requires LedgerInv(rows)
    ensures LedgerInv(LedgerRun(rows, events))
    decreases |events|
  {
    if events != [] {
      match events[0] {
        case Import(imported) => MergeKeepsInv(rows, imported);
        case Review(id, status, note) => ReviewTouchesOneRow(rows, id, status, note);
      }
      LedgerStaysSound(LedgerStep(rows, events[0]), events[1..]);
    }
  }

  // ---------------------------------------------------------------------------
  // What an import does to single rows
  // ---------------------------------------------------------------------------

  predicate SameCase(before: SettlementRow, after: SettlementRow) {
    && after.providerRef == before.providerRef && after.id == before.id && after.reviewStatus == before.reviewStatus
    && (before.note != "" ==> after.note == before.note)
  }

  /** The first rows of `after` are the rows of `before`, each with its case. */
  predicate SameCases(before: seq<SettlementRow>, after: seq<SettlementRow>) {
    |before| <= |after| && forall i :: 0 <= i < |before| ==> SameCase(before[i], after[i])
  }

  lemma ConsCases(head: SettlementRow, before: seq<SettlementRow>, after: seq<SettlementRow>)
    requires SameCases(before, after)
    ensures SameCases([head] + before, [head] + after)
  {
    forall i | 0 <= i < |before| + 1 ensures SameCase(([head] + before)[i], ([head] + after)[i]) {
      if i > 0 {
        assert SameCase(before[i - 1], after[i - 1]);
      }
    }
  }

  lemma CasesChain(first: seq<SettlementRow>, second: seq<SettlementRow>, third: seq<SettlementRow>)
    requires SameCases(first, second) && SameCases(second, third)
    ensures SameCases(first, third)
  {
    forall i | 0 <= i < |first| ensures SameCase(first[i], third[i]) {
      assert SameCase(first[i], second[i]) && SameCase(second[i], third[i]);
    }
  }

  lemma {:induction false} UpsertPreservesCases(rows: seq<SettlementRow>, row: SettlementRow)
    ensures SameCases(rows, Upsert(rows, row))
  {
    if rows != [] {
      assert rows == [rows[0]] + rows[1..];
      if rows[0].providerRef != row.providerRef {
        UpsertPreservesCases(rows[1..], row);
        ConsCases(rows[0], rows[1..], Upsert(rows[1..], row));
      }
    }
  }

  lemma {:induction false} UpsertAllPreservesCases(rows: seq<SettlementRow>, imported: seq<SettlementRow>)
    ensures SameCases(rows, UpsertAll(rows, imported))
    decreases |imported|
  {
    if imported != [] {
      UpsertPreservesCases(rows, imported[0]);
      UpsertAllPreservesCases(Upsert(rows, imported[0]), imported[1..]);
      CasesChain(rows, Upsert(rows, imported[0]), UpsertAll(rows, imported));
    }
  }

  /** The same payment with the same facts; id, decision and note may be those of an older row. */
  predicate SameFacts(row: SettlementRow, imported: SettlementRow) {
    && row.providerRef == imported.providerRef && row.amount == imported.amount && row.currency == imported.currency
    && row.matchStatus == imported.matchStatus && row.importedAt == imported.importedAt
  }

  lemma {:induction false} UpsertBringsFacts(rows: seq<SettlementRow>, row: SettlementRow)
    ensures exists r :: r in Upsert(rows, row) && SameFacts(r, row)
  {
    if rows == [] {
      assert row in Upsert(rows, row);
    } else if rows[0].providerRef == row.providerRef {
      assert Upsert(rows, row)[0] in Upsert(rows, row) && SameFacts(Upsert(rows, row)[0], row);
    } else {
      UpsertBringsFacts(rows[1..], row);
      var r :| r in Upsert(rows[1..], row) && SameFacts(r, row);
      assert r in Upsert(rows, row);
    }
  }

  lemma {:induction false} UpsertKeepsOtherRows(rows: seq<SettlementRow>, row: SettlementRow, other: SettlementRow)
    requires other in rows && other.providerRef != row.providerRef
    ensures other in Upsert(rows, row)
  {
    if rows[0] != other {
      assert other in rows[1..];
      if rows[0].providerRef != row.providerRef {
        UpsertKeepsOtherRows(rows[1..], row, other);
      }
    }
  }

  lemma {:induction false} UpsertAllKeepsOtherRows(rows: seq<SettlementRow>, imported: seq<SettlementRow>,
                                                   other: SettlementRow)
    requires other in rows && forall i :: 0 <= i < |imported| ==> imported[i].providerRef != other.providerRef
    ensures other in UpsertAll(rows, imported)
    decreases |imported|
  {
    if imported != [] {
      UpsertKeepsOtherRows(rows, imported[0], other);
      UpsertAllKeepsOtherRows(Upsert(rows, imported[0]), imported[1..], other);
    }
  }

  /** An import brings the facts of its rows: of several with one reference those of the last; and,
      unless it is cut off as one of the oldest, the ledger has them afterwards. */
  lemma {:induction false} ImportBringsFacts(rows: seq<SettlementRow>, imported: seq<SettlementRow>, i: nat)
    requires i < |imported|
    requires forall j :: i < j < |imported| ==> imported[j].providerRef != imported[i].providerRef
    ensures exists r :: r in UpsertAll(rows, imported) && SameFacts(r, imported[i])
    decreases |imported|
  {
    var next := Upsert(rows, imported[0]);
    if i == 0 {
      UpsertBringsFacts(rows, imported[0]);
      var r :| r in next && SameFacts(r, imported[0]);
      UpsertAllKeepsOtherRows(next, imported[1..], r);
      assert r in UpsertAll(rows, imported);
    } else {
      ImportBringsFacts(next, imported[1..], i - 1);
      var r :| r in UpsertAll(next, imported[1..]) && SameFacts(r, imported[i]);
      assert r in UpsertAll(rows, imported);
    }
  }

  lemma MergedComesFromUpsert(rows: seq<SettlementRow>, imported: seq<SettlementRow>, k: nat)
    requires k < |Merge(rows, imported)|
    ensures Merge(rows, imported)[k] in UpsertAll(rows, imported)
  {
    SortFacts(UpsertAll(rows, imported));
    assert Merge(rows, imported)[k] in multiset(NewestFirst(UpsertAll(rows, imported)));
  }

  /** A row that is still there after an import kept its id, its review decision and its note. */
  lemma ImportKeepsDecisions(rows: seq<SettlementRow>, imported: seq<SettlementRow>, i: nat, k: nat)
    requires LedgerInv(rows) && i < |rows| && k < |Merge(rows, imported)|
    requires Merge(rows, imported)[k].providerRef == rows[i].providerRef
    ensures SameCase(rows[i], Merge(rows, imported)[k])
  {
    var all := UpsertAll(rows, imported);
    UpsertAllKeepsUnique(rows, imported);
    UpsertAllPreservesCases(rows, imported);
    MergedComesFromUpsert(rows, imported, k);
    var j :| 0 <= j < |all| && all[j] == Merge(rows, imported)[k];
    assert SameCase(rows[i], all[i]);
    assert all[i].providerRef == all[j].providerRef;
  }

  /** Only the oldest imports fall off the end. */
  lemma OldestFallOff(rows: seq<SettlementRow>, imported: seq<SettlementRow>, row: SettlementRow, k: nat)
    requires row in UpsertAll(rows, imported) && row !in Merge(rows, imported) && k < |Merge(rows, imported)|
    ensures |Merge(rows, imported)| == 1_000 && row.importedAt <= Merge(rows, imported)[k].importedAt
  {
    var sorted := NewestFirst(UpsertAll(rows, imported));
    SortFacts(UpsertAll(rows, imported));
    assert row in multiset(UpsertAll(rows, imported));
    var j :| 0 <= j < |sorted| && sorted[j] == row;
    assert j >= CAPACITY;
  }

  // ---------------------------------------------------------------------------
  // Provider events
  // ---------------------------------------------------------------------------

  function FindRef(rows: seq<SettlementRow>, providerRef: string): Option<SettlementRow> {
    if rows == [] then None
    else if rows[0].providerRef == providerRef then Some(rows[0])
    else FindRef(rows[1..], providerRef)
  }

  /** The row a refund or chargeback event records and returns: it prefers the event's note. */
  function EventRow(rows: seq<SettlementRow>, row: SettlementRow): SettlementRow {
    match FindRef(rows, row.providerRef)
    case None => row
    case Some(existing) =>
      row.(id := existing.id, reviewStatus := existing.reviewStatus,
           note := if row.note != "" then row.note else existing.note)
  }

  predicate NotesAgree(row: SettlementRow, existing: SettlementRow) {
    row.note == "" || existing.note == "" || row.note == existing.note
  }

  /** Merging prefers the older note, so setting the map entry keeps the row exactly when the event
      brings no note, or there was none, or it is the same one. */
  lemma {:induction false} UpsertStoresExactly(rows: seq<SettlementRow>, row: SettlementRow)
    ensures FindRef(Upsert(rows, EventRow(rows, row)), row.providerRef) == Some(EventRow(rows, row)) <==>
              (FindRef(rows, row.providerRef).Some? ==> NotesAgree(row, FindRef(rows, row.providerRef).value))
    ensures |Upsert(rows, EventRow(rows, row))| == |rows| + if FindRef(rows, row.providerRef).Some? then 0 else 1
  {
    var e := EventRow(rows, row);
    if rows != [] && rows[0].providerRef != row.providerRef {
      UpsertStoresExactly(rows[1..], row);
      assert EventRow(rows[1..], row) == e;
      assert Upsert(rows, e)[1..] == Upsert(rows[1..], e);
    }
  }

  lemma {:induction false} NewReferenceGoesLast(rows: seq<SettlementRow>, row: SettlementRow)
    requires FindRef(rows, row.providerRef).None?
    ensures Upsert(rows, row) == rows + [row] && EventRow(rows, row) == row
  {
    if rows != [] {
      NewReferenceGoesLast(rows[1..], row);
      assert rows + [row] == [rows[0]] + (rows[1..] + [row]);
    }
  }

  /** With distinct references, finding a row by its reference is finding the row. */
  lemma {:induction false} FindRefIsMembership(rows: seq<SettlementRow>, row: SettlementRow)
    requires UniqueRefs(rows)
    ensures FindRef(rows, row.providerRef) == Some(row) <==> row in rows
  {
    if rows != [] {
      assert rows == [rows[0]] + rows[1..];
      ConsUnique(rows[0], rows[1..]);
      FindRefIsMembership(rows[1..], row);
      if row in rows[1..] {
        assert HasRef(rows[1..], row.providerRef);
      }
    }
  }

  lemma {:induction false} InsertKeepsLast(row: SettlementRow, sorted: seq<SettlementRow>, last: SettlementRow)
    requires row.importedAt >= last.importedAt
    ensures Insert(row, sorted + [last]) == Insert(row, sorted) + [last]
  {
    var all := sorted + [last];
    if sorted == [] {
      assert all == [last];
    } else if sorted[0].importedAt > row.importedAt {
      assert all[1..] == sorted[1..] + [last];
      InsertKeepsLast(row, sorted[1..], last);
    }
  }

  /** The sort is stable: a row no newer than any other, set last, comes last. */
  lemma {:induction false} OldestStaysLast(rows: seq<SettlementRow>, last: SettlementRow)
    requires forall i :: 0 <= i < |rows| ==> rows[i].importedAt >= last.importedAt
    ensures NewestFirst(rows + [last]) == NewestFirst(rows) + [last]
  {
    var all := rows + [last];
    if rows == [] {
      assert all == [last] && all[1..] == [];
    } else {
      assert all[1..] == rows[1..] + [last];
      OldestStaysLast(rows[1..], last);
      InsertKeepsLast(rows[0], NewestFirst(rows[1..]), last);
    }
  }

  /** The cut takes a new row away exactly when the ledger is full of rows at least as new. */
  predicate RoomFor(rows: seq<SettlementRow>, row: SettlementRow) {
    |rows| < CAPACITY || rows[CAPACITY - 1].importedAt < row.importedAt
  }

  lemma MergeOne(rows: seq<SettlementRow>, row: SettlementRow)
    ensures Merge(rows, [row]) == Cut(NewestFirst(Upsert(rows, row)))
  {
    assert [row][1..] == [];
    assert UpsertAll(rows, [row]) == UpsertAll(Upsert(rows, row), []);
  }

  lemma SortKeepsLength(rows: seq<SettlementRow>)
    ensures |NewestFirst(rows)| == |rows|
  {
    SortFacts(rows);
    assert |multiset(NewestFirst(rows))| == |NewestFirst(rows)| && |multiset(rows)| == |rows|;
  }

  lemma SortKeepsMembers(rows: seq<SettlementRow>, row: SettlementRow)
    ensures row in NewestFirst(rows) <==> row in rows
  {
    SortFacts(rows);
    assert row in multiset(NewestFirst(rows)) <==> row in multiset(rows);
  }

  lemma FullLedgerDropsOldRow(rows: seq<SettlementRow>, row: SettlementRow)
    requires LedgerInv(rows) && FindRef(rows, row.providerRef).None? && !RoomFor(rows, row)
    ensures FindRef(Merge(rows, [row]), row.providerRef).None?
  {
    MergeOne(rows, row);
    NewReferenceGoesLast(rows, row);
    OldestStaysLast(rows, row);
    SortKeepsLength(rows);
    assert Cut(NewestFirst(rows) + [row]) == NewestFirst(rows);
    NotFound(rows, row.providerRef);
    forall r | r in NewestFirst(rows) ensures r.providerRef != row.providerRef {
      SortKeepsMembers(rows, r);
    }
    NotFound(NewestFirst(rows), row.providerRef);
  }

  lemma {:induction false} NotFound(rows: seq<SettlementRow>, providerRef: string)
    ensures FindRef(rows, providerRef).None? <==> forall r :: r in rows ==> r.providerRef != providerRef
  {
    if rows != [] {
      NotFound(rows[1..], providerRef);
    }
  }

  /** With room, the stored row is the one the map holds. */
  lemma RoomKeepsRow(rows: seq<SettlementRow>, row: SettlementRow)
    requires LedgerInv(rows) && (FindRef(rows, row.providerRef).Some? || RoomFor(rows, row))
    ensures var e := EventRow(rows, row);
            e in Merge(rows, [e]) <==> e in Upsert(rows, e)
  {
    var e := EventRow(rows, row);
    var all := Upsert(rows, e);
    MergeOne(rows, e);
    UpsertStoresExactly(rows, row);
    SortKeepsLength(all);
    SortKeepsMembers(all, e);
    if |all| > CAPACITY {
      NewReferenceGoesLast(rows, row);
      CutKeepsNewer(rows, row);
    }
  }

  lemma CutKeepsNewer(rows: seq<SettlementRow>, row: SettlementRow)
    requires |rows| == CAPACITY && rows[CAPACITY - 1].importedAt < row.importedAt
    ensures row in Cut(NewestFirst(rows + [row]))
  {
    var all := rows + [row];
    var sorted := NewestFirst(all);
    SortFacts(all);
    SortKeepsLength(all);
    SortKeepsMembers(all, row);
    assert rows[CAPACITY - 1] == all[CAPACITY - 1];
    SortKeepsMembers(all, rows[CAPACITY - 1]);
    LastIsOldest(sorted, rows[CAPACITY - 1]);
    var i :| 0 <= i < |sorted| && sorted[i] == row;
    assert Cut(sorted)[i] == row;
  }

  lemma LastIsOldest(sorted: seq<SettlementRow>, row: SettlementRow)
    requires Sorted(sorted) && row in sorted
    ensures sorted[|sorted| - 1].importedAt <= row.importedAt
  {
    var i :| 0 <= i < |sorted| && sorted[i] == row;
  }

  /** The returned row is the stored row if and only if the notes do not conflict and, for a new
      reference, the ledger is not full of rows at least as new. */
  lemma ReturnedRowIsStoredExactly(rows: seq<SettlementRow>, row: SettlementRow)
    requires LedgerInv(rows)
    ensures var e := EventRow(rows, row);
            FindRef(Merge(rows, [e]), row.providerRef) == Some(e) <==>
              match FindRef(rows, row.providerRef)
              case Some(existing) => NotesAgree(row, existing)
              case None => RoomFor(rows, row)
  {
    var e := EventRow(rows, row);
    var all := Upsert(rows, e);
    UpsertStoresExactly(rows, row);
    UpsertKeepsUnique(rows, e);
    MergeKeepsInv(rows, [e]);
    FindRefIsMembership(all, e);
    FindRefIsMembership(Merge(rows, [e]), e);
    if FindRef(rows, row.providerRef).Some? || RoomFor(rows, row) {
      RoomKeepsRow(rows, row);
    } else {
      NewReferenceGoesLast(rows, row);
      FullLedgerDropsOldRow(rows, row);
    }
  }

  /** An input for the first way to fail: the older note wins in the ledger, the newer one is returned. */
  lemma ConflictingNoteIsNotStored()
    ensures var stored := SettlementRow("id", "y", 1.0, "INR", Refund, Pending, "older", 0);
            var row := SettlementRow("new", "y", 1.0, "INR", Refund, Pending, "newer", 1);
            var e := EventRow([stored], row);
            LedgerInv([stored]) && FindRef(Merge([stored], [e]), "y") != Some(e)
  {
    var stored := SettlementRow("id", "y", 1.0, "INR", Refund, Pending, "older", 0);
    var row := SettlementRow("new", "y", 1.0, "INR", Refund, Pending, "newer", 1);
    assert stored.note[0] == 'o' && row.note[0] == 'n';
    ReturnedRowIsStoredExactly([stored], row);
  }

  function Xs(n: nat): string { seq(n, _ => 'x') }

  function FullLedger(importedAt: int): seq<SettlementRow> {
    seq(CAPACITY, i requires 0 <= i < CAPACITY =>
      SettlementRow(Xs(i), Xs(i), 1.0, "INR", Matched, Accepted, "", importedAt))
  }

  /** An input for the second way to fail: a thousand rows of this millisecond, and one more event. */
  lemma FullLedgerLosesEvent(importedAt: int)
    ensures var rows := FullLedger(importedAt);
            var row := SettlementRow("id", "y", 1.0, "INR", Refund, Pending, "", importedAt);
            LedgerInv(rows) && EventRow(rows, row) == row && FindRef(Merge(rows, [row]), "y").None?
  {
    var rows, row := FullLedger(importedAt), SettlementRow("id", "y", 1.0, "INR", Refund, Pending, "", importedAt);
    forall i, j | 0 <= i < j < |rows| ensures rows[i].providerRef != rows[j].providerRef {
      assert |Xs(i)| == i && |Xs(j)| == j;
    }
    forall r | r in rows ensures r.providerRef != "y" {
      var i :| 0 <= i < |rows| && rows[i] == r;
      assert i == 1 ==> Xs(i)[0] == 'x';
      assert |Xs(i)| == i;
    }
    NotFound(rows, "y");
    FullLedgerDropsOldRow(rows, row);
  }

  // ---------------------------------------------------------------------------
  // Summary
  // ---------------------------------------------------------------------------

  function CountIf(rows: seq<SettlementRow>, keep: MatchStatus -> bool): nat {
    if rows == [] then 0 else (if keep(rows[0].matchStatus) then 1 else 0) + CountIf(rows[1..], keep)
  }

  function CountPending(rows: seq<SettlementRow>): nat {
    if rows == [] then 0 else (if rows[0].reviewStatus.Pending? then 1 else 0) + CountPending(rows[1..])
  }

  datatype Summary = Summary(rowCount: nat, matched: nat, pendingReview: nat, missingOrder: nat, mismatch: nat,
                             refund: nat)

  function Summarize(rows: seq<SettlementRow>): Summary {
    Summary(|rows|,
            CountIf(rows, (s: MatchStatus) => s.Matched?),
            CountPending(rows),
            CountIf(rows, (s: MatchStatus) => s.MissingOrder?),
            CountIf(rows, (s: MatchStatus) => s.AmountMismatch? || s.CurrencyMismatch?),
            CountIf(rows, (s: MatchStatus) => s.Refund? || s.Chargeback?))
  }

  function Statuses(rows: seq<SettlementRow>): multiset<MatchStatus> {
    multiset(seq(|rows|, i requires 0 <= i < |rows| => rows[i].matchStatus))
  }

  function Reviews(rows: seq<SettlementRow>): multiset<ReviewStatus> {
    multiset(seq(|rows|, i requires 0 <= i < |rows| => rows[i].reviewStatus))
  }

  lemma FirstStatus(rows: seq<SettlementRow>)
    requires rows != []
    ensures Statuses(rows) == multiset{rows[0].matchStatus} + Statuses(rows[1..])
    ensures Reviews(rows) == multiset{rows[0].reviewStatus} + Reviews(rows[1..])
  {
    var tail := rows[1..];
    assert seq(|rows|, i requires 0 <= i < |rows| => rows[i].matchStatus)
           == [rows[0].matchStatus] + seq(|tail|, i requires 0 <= i < |tail| => tail[i].matchStatus);
    assert seq(|rows|, i requires 0 <= i < |rows| => rows[i].reviewStatus)
           == [rows[0].reviewStatus] + seq(|tail|, i requires 0 <= i < |tail| => tail[i].reviewStatus);
  }

  /** Which rows each count counts. */
  lemma {:induction false} SummaryCounts(rows: seq<SettlementRow>)
    ensures var s := Summarize(rows);
            && s.rowCount == |rows| && s.matched == Statuses(rows)[Matched]
            && s.pendingReview == Reviews(rows)[ReviewStatus.Pending]
            && s.missingOrder == Statuses(rows)[MissingOrder]
            && s.mismatch == Statuses(rows)[AmountMismatch] + Statuses(rows)[CurrencyMismatch]
            && s.refund == Statuses(rows)[MatchStatus.Refund] + Statuses(rows)[Chargeback]
  {
    if rows != [] {
      FirstStatus(rows);
      SummaryCounts(rows[1..]);
    }
  }

  /** The four counts of the summary cover every row once. */
  lemma {:induction false} CountsAddUp(rows: seq<SettlementRow>)
    ensures var s := Summarize(rows); s.matched + s.missingOrder + s.mismatch + s.refund == s.rowCount
  {
    if rows != [] {
      CountsAddUp(rows[1..]);
    }
  }
}
