/** `recordLedgerEvent` as one caller runs it (src/lib/audit-ledger.ts:168-237):
    the append, its retry loop, and the numbering of the ledger view
    (lines 330-377). */
module LedgerAppend {
  import opened Options
  import opened CanonicalJson
  import opened LedgerDigest
  import opened LedgerChain
  import opened LedgerProtocol

  /** What one attempt meets: its statements run, or they raise an error. */
  datatype Attempt =
    | Runs(now: int, id: Text, stored: Json)
    | ChainCollision
    | OtherError

  /** The attempt after which `recordLedgerEvent` does not try again. */
  function Deciding(ownsTransaction: bool, attempts: seq<Attempt>): (k: nat)
    requires |attempts| == 3
    ensures k < 3
    ensures forall j :: 0 <= j < k ==> ownsTransaction && attempts[j].ChainCollision?
    ensures k < 2 ==> !(ownsTransaction && attempts[k].ChainCollision?)
  {
    if !(ownsTransaction && attempts[0].ChainCollision?) then 0
    else if !attempts[1].ChainCollision? then 1
    else 2
  }

  predicate NewerThan(a: Row, b: Row) {
    a.record.createdAt > b.record.createdAt || (a.record.createdAt == b.record.createdAt && Less(b.id, a.id))
  }

  class LedgerTable {
    var rows: map<Text, seq<Row>>

    constructor ()
      ensures rows == map[]
    {
      rows := map[];
    }

    /** The first row of the tenant by descending (createdAt, id). */
    method FindHead(org: Text) returns (head: Option<Row>)
      ensures IsHead(Rows(rows, org), head)
      ensures head.Some? ==> forall q :: q in Rows(rows, org) ==> !NewerThan(q, head.value)
      ensures head.Some? ==> forall q :: q in Rows(rows, org) && q.record.createdAt == head.value.record.createdAt ==>
                               q.id == head.value.id || Before(q.id, head.value.id)
    {
      head := None;
      var all := Rows(rows, org);
      var i := 0;
      while i < |all|
        invariant 0 <= i <= |all|
        invariant IsHead(all[..i], head)
        invariant head.Some? ==> forall q :: q in all[..i] ==> !NewerThan(q, head.value)
      {
        assert all[..i + 1] == all[..i] + [all[i]];
        if head.None? {
          head := Some(all[i]);
          LessTrichotomy(all[i].id, all[i].id);
        } else if NewerThan(all[i], head.value) {
          NewestSoFar(all[..i], head.value, all[i]);
          head := Some(all[i]);
        }
        i := i + 1;
      }
      assert all[..i] == all;
      if head.Some? { TiesById(all, head.value); }
    }

    /** One append inside an open transaction. */
    method AppendOnce(c: Crypto, input: Input, now: int, id: Text, stored: Json)
      returns (receipt: Receipt, ghost head: Option<Row>)
      modifies this
      ensures IsHead(old(Rows(rows, input.organizationId)), head)
      ensures var row := NextRow(c, input, head, now, id, stored);
              && rows == old(Add(rows, input.organizationId, row))
              && receipt == ReceiptFor(input.organizationId, row, |Rows(rows, input.organizationId)|)
              && Says(row, input, id, stored) && Succeeds(row, head, now)
    {
      var found := FindHead(input.organizationId);
      head := found;
      var row := NextRow(c, input, found, now, id, stored);
      NextRowSays(c, input, found, now, id, stored);
      rows := Add(rows, input.organizationId, row);
      receipt := Receipt(input.organizationId, id, row.currentHash, row.record.previousHash,
                         |Rows(rows, input.organizationId)|);
    }

    /** One append, with what it means for a tenant whose ledger is in order. */
    method AppendInOrder(c: Crypto, input: Input, now: int, id: Text, stored: Json) returns (receipt: Receipt)
      requires StoredAs(input.metadata, stored)
      modifies this
      ensures forall org :: org != input.organizationId ==> Rows(rows, org) == old(Rows(rows, org))
      ensures Recorded(c, input, old(Rows(rows, input.organizationId)), Rows(rows, input.organizationId),
                       now, id, stored, receipt)
    {
      ghost var before := Rows(rows, input.organizationId);
      ghost var head;
      receipt, head := AppendOnce(c, input, now, id, stored);
      if IsChain(c, input.organizationId, before) {
        AppendedInOrder(c, input, before, head, now, id, stored);
      }
    }

    /** An event is recorded exactly when the deciding attempt runs; then the
        tenant's chain is one row longer, still verifies, and the receipt names the
        new row by its position. Otherwise nothing changes. */
    method RecordLedgerEvent(c: Crypto, input: Input, ownsTransaction: bool, attempts: seq<Attempt>)
      returns (result: Option<Receipt>)
      requires |attempts| == 3
      requires forall k :: 0 <= k < 3 && attempts[k].Runs? ==> StoredAs(input.metadata, attempts[k].stored)
      modifies this
      ensures result.Some? <==> attempts[Deciding(ownsTransaction, attempts)].Runs?
      ensures result.None? ==> rows == old(rows)
      ensures forall org :: org != input.organizationId ==> Rows(rows, org) == old(Rows(rows, org))
      ensures result.Some? ==>
                var a := attempts[Deciding(ownsTransaction, attempts)];
                Recorded(c, input, old(Rows(rows, input.organizationId)), Rows(rows, input.organizationId),
                         a.now, a.id, a.stored, result.value)
    {
      for attempt := 0 to 3
        invariant rows == old(rows)
        invariant forall j :: 0 <= j < attempt ==> ownsTransaction && attempts[j].ChainCollision?
      {
        match attempts[attempt]
        case Runs(now, id, stored) =>
          var receipt := AppendInOrder(c, input, now, id, stored);
          return Some(receipt);
        case ChainCollision =>
          if !(ownsTransaction && attempt < 2) {
            return None;
          }
        case OtherError => return None;
      }
      return None;
    }
  }

  /** One row is added, which says what was to be recorded; in a ledger in order it
      succeeds the last one, the ledger still is in order, and the receipt names the row by
      its position, the last. */
  ghost predicate Recorded(c: Crypto, input: Input, before: seq<Row>, after: seq<Row>,
                           now: int, id: Text, stored: Json, receipt: Receipt)
  {
    && |after| == |before| + 1 && before <= after
    && Says(after[|before|], input, id, stored)
    && (IsChain(c, input.organizationId, before) ==>
          && Succeeds(after[|before|], LastRow(before), now)
          && after == before + [NextRow(c, input, LastRow(before), now, id, stored)]
          && IsChain(c, input.organizationId, after)
          && Names(after, receipt) && receipt.sequence == |after|)
  }

  /** On a chain one append adds the next row, and its receipt names it. */
  lemma AppendedInOrder(c: Crypto, input: Input, before: seq<Row>, head: Option<Row>, now: int, id: Text, stored: Json)
    requires IsChain(c, input.organizationId, before) && IsHead(before, head) && StoredAs(input.metadata, stored)
    ensures head == LastRow(before)
    ensures var row := NextRow(c, input, head, now, id, stored);
            && IsChain(c, input.organizationId, before + [row])
            && Names(before + [row], ReceiptFor(input.organizationId, row, |before + [row]|))
  {
    HeadIsLast(before, head);
    NextRowExtends(c, input.organizationId, before, input, now, id, stored);
  }

  /** Of rows of one instant the greatest id is first. */
  lemma TiesById(rows: seq<Row>, head: Row)
    requires forall q :: q in rows ==> !NewerThan(q, head)
    ensures forall q :: q in rows && q.record.createdAt == head.record.createdAt ==> q.id == head.id || Before(q.id, head.id)
  {
    forall q | q in rows && q.record.createdAt == head.record.createdAt ensures q.id == head.id || Before(q.id, head.id) {
      LessTrichotomy(q.id, head.id);
      LessExactly(q.id, head.id);
    }
  }

  lemma NewestSoFar(rows: seq<Row>, head: Row, row: Row)
    requires (forall q :: q in rows ==> !NewerThan(q, head)) && NewerThan(row, head)
    requires forall q :: q in rows ==> q.record.createdAt <= head.record.createdAt
    ensures !NewerThan(row, row)
    ensures forall q :: q in rows ==> !NewerThan(q, row) && q.record.createdAt <= row.record.createdAt
  {
    LessTrichotomy(row.id, row.id);
    forall q | q in rows ensures !NewerThan(q, row) {
      if NewerThan(q, row) {
        LessTransitive(head.id, row.id, q.id);
      }
    }
  }

  // ------------------------------------------------------------- ledger view

  datatype LedgerEvent = LedgerEvent(row: Row, sequence: int)

  function Reverse<T>(s: seq<T>): seq<T> {
    if s == [] then [] else Reverse(s[1..]) + [s[0]]
  }

  lemma {:induction false} ReverseAt<T>(s: seq<T>, k: nat)
    requires k < |s|
    ensures |Reverse(s)| == |s| && Reverse(s)[k] == s[|s| - 1 - k]
  {
    if |s| > 1 { ReverseAt(s[1..], if k < |s| - 1 then k else 0); }
  }

  /** The newest rows, at most `limit` of them, numbered down from the total. */
  method GetComplianceLedger(ledger: seq<Row>, limit: nat) returns (events: seq<LedgerEvent>)
    ensures |events| == if limit < |ledger| then limit else |ledger|
    ensures forall k :: 0 <= k < |events| ==>
              && 1 <= events[k].sequence <= |ledger|
              && events[k].row == ledger[events[k].sequence - 1]
              && events[k].sequence == |ledger| - k
  {
    var total := |ledger|;
    var newest := Reverse(ledger);
    if ledger != [] { ReverseAt(ledger, 0); }
    var rows := newest[..if limit < total then limit else total];
    events := [];
    for idx := 0 to |rows|
      invariant |events| == idx
      invariant forall k :: 0 <= k < idx ==>
                  && 1 <= events[k].sequence <= total
                  && events[k].row == ledger[events[k].sequence - 1]
                  && events[k].sequence == total - k
    {
      ReverseAt(ledger, idx);
      events := events + [LedgerEvent(rows[idx], total - idx)];
    }
  }
}
