/** The append protocol of the compliance ledger under concurrency
    (src/lib/audit-ledger.ts:139-237). Any number of transactions, opened by the
    ledger itself or by its callers, interleave their statements, and so do any
    number of appends within one transaction: take the tenant's advisory lock, which
    a transaction that has it takes again at once, read the head, insert the next
    row, count. Any statement can fail, which leaves its transaction only to be
    rolled back. A statement sees the committed rows and its own transaction's rows,
    and every instance has a clock of its own, which may jump either way. */
module LedgerProtocol {
  import opened Options
  import opened CanonicalJson
  import opened LedgerDigest
  import opened LedgerChain

  datatype Input = Input(organizationId: Text, actorId: Text, actionType: Text, targetResource: Text, metadata: Json)

  /** What `recordLedgerEvent` returns. */
  datatype Receipt = Receipt(organizationId: Text, id: Text, currentHash: Text, previousHash: Option<Text>, sequence: nat)

  /** How far an append has come. */
  datatype Phase =
    | Locked(input: Input)
    | HeadRead(input: Input, head: Option<Row>)
    | Inserted(input: Input, row: Row)

  type TxId = nat
  type AppendId = nat

  /** `appends` are those under way in the transaction; `failed` says that a statement
      of it has failed. */
  datatype Tx = Tx(pending: map<Text, seq<Row>>, appends: map<AppendId, Phase>, receipts: seq<Receipt>, failed: bool)

  /** What is left of a transaction after a failed statement. */
  const FAILED := Tx(map[], map[], [], true)

  datatype State = State(
    committed: map<Text, seq<Row>>, txs: map<TxId, Tx>, locks: map<int, TxId>, reported: seq<Receipt>)

  /** The hash functions, and `hashtext`, which names a tenant's advisory lock;
      two tenants may share a lock. */
  datatype Env = Env(crypto: Crypto, lockKey: Text -> int)

  function Rows(m: map<Text, seq<Row>>, org: Text): seq<Row> {
    if org in m then m[org] else []
  }

  function Add(m: map<Text, seq<Row>>, org: Text, row: Row): map<Text, seq<Row>> {
    m[org := Rows(m, org) + [row]]
  }

  /** The rows of a tenant that a transaction sees. */
  function View(s: State, t: TxId, org: Text): seq<Row>
    requires t in s.txs
  {
    Rows(s.committed, org) + Rows(s.txs[t].pending, org)
  }

  predicate Holds(e: Env, s: State, t: TxId, org: Text) {
    e.lockKey(org) in s.locks && s.locks[e.lockKey(org)] == t
  }

  /** The newest visible row: one that no other row is later than. */
  predicate IsHead(rows: seq<Row>, head: Option<Row>) {
    match head
    case None => rows == []
    case Some(r) => r in rows && forall q :: q in rows ==> q.record.createdAt <= r.record.createdAt
  }

  function Max(a: int, b: int): int { if a < b then b else a }

  function HashOf(head: Option<Row>): Option<Text> {
    if head.Some? then Some(head.value.currentHash) else None
  }

  /** The record that an append writes after `head` when its clock reads `now`. */
  function NextRecord(input: Input, head: Option<Row>, now: int): Record {
    Record(input.organizationId, input.actorId, input.actionType, input.targetResource, input.metadata,
           Max(now, (if head.Some? then head.value.record.createdAt else 0) + 1), HashOf(head))
  }

  /** The row as it is stored: hashed over the record, its metadata kept by the
      database as `stored`. */
  function NextRow(c: Crypto, input: Input, head: Option<Row>, now: int, id: Text, stored: Json): Row {
    var r := NextRecord(input, head, now);
    Row(id, r.(metadata := stored), Hash(c, r))
  }

  /** The row says what the append was asked to record, field by field, under the id and
      with the metadata that the database gives it. */
  predicate Says(row: Row, input: Input, id: Text, stored: Json) {
    && row.id == id
    && row.record.organizationId == input.organizationId
    && row.record.actorId == input.actorId
    && row.record.actionType == input.actionType
    && row.record.targetResource == input.targetResource
    && row.record.metadata == stored
  }

  /** It names the head, and its time is the clock's if that is later than the head's
      (than 0, without a head), and otherwise one more than the head's. */
  predicate Succeeds(row: Row, head: Option<Row>, now: int) {
    match head
    case None => row.record.previousHash == None && row.record.createdAt == if now >= 1 then now else 1
    case Some(h) =>
      && row.record.previousHash == Some(h.currentHash)
      && row.record.createdAt == if now > h.record.createdAt then now else h.record.createdAt + 1
  }

  lemma NextRowSays(c: Crypto, input: Input, head: Option<Row>, now: int, id: Text, stored: Json)
    ensures var row := NextRow(c, input, head, now, id, stored);
            Says(row, input, id, stored) && Succeeds(row, head, now)
  {
  }

  /** A JSON column gives back the same value, perhaps with its keys reordered. */
  ghost predicate StoredAs(metadata: Json, stored: Json) {
    WellFormed(metadata) && WellFormed(stored) && MeaningOf(metadata, {}) == MeaningOf(stored, {})
  }

  // ------------------------------------------------------------------- steps

  datatype Step =
    | Begin(t: TxId)
    | Lock(t: TxId, a: AppendId, input: Input)
    | ReadHead(t: TxId, a: AppendId, head: Option<Row>)
    | Insert(t: TxId, a: AppendId, now: int, id: Text, stored: Json)
    | Count(t: TxId, a: AppendId)
    | Fail(t: TxId)
    | Commit(t: TxId)
    | Rollback(t: TxId)

  predicate Open(s: State, t: TxId) {
    t in s.txs && !s.txs[t].failed
  }

  predicate UnderWay(s: State, t: TxId, a: AppendId) {
    Open(s, t) && a in s.txs[t].appends
  }

  /** Unique on (tenant, previousHash), where nulls do not count. */
  predicate Conflicts(rows: seq<Row>, previousHash: Option<Text>) {
    previousHash.Some? && exists k :: 0 <= k < |rows| && rows[k].record.previousHash == previousHash
  }

  function WithTx(s: State, t: TxId, tx: Tx): State {
    s.(txs := s.txs[t := tx])
  }

  function Advanced(s: State, t: TxId, a: AppendId, phase: Phase): State
    requires t in s.txs
  {
    WithTx(s, t, s.txs[t].(appends := s.txs[t].appends[a := phase]))
  }

  function Unlock(locks: map<int, TxId>, t: TxId): map<int, TxId> {
    map k | k in locks && locks[k] != t :: locks[k]
  }

  /** A failed statement undoes its transaction, locks included, at once; the
      transaction then waits for its end. */
  function Failed(s: State, t: TxId): State {
    WithTx(s, t, FAILED).(locks := Unlock(s.locks, t))
  }

  function WithRow(s: State, t: TxId, a: AppendId, input: Input, row: Row): State
    requires t in s.txs
  {
    var tx := s.txs[t];
    WithTx(s, t, tx.(pending := Add(tx.pending, input.organizationId, row),
                     appends := tx.appends[a := Inserted(input, row)]))
  }

  /** What `recordLedgerEvent` reports of the row it inserted. */
  function ReceiptFor(org: Text, row: Row, sequence: nat): Receipt {
    Receipt(org, row.id, row.currentHash, row.record.previousHash, sequence)
  }

  function Counted(s: State, t: TxId, a: AppendId, org: Text, row: Row): State
    requires t in s.txs
  {
    var tx := s.txs[t];
    WithTx(s, t, tx.(appends := tx.appends - {a},
                     receipts := tx.receipts + [ReceiptFor(org, row, |View(s, t, org)|)]))
  }

  function Merge(a: map<Text, seq<Row>>, b: map<Text, seq<Row>>): map<Text, seq<Row>> {
    map org | org in a.Keys + b.Keys :: Rows(a, org) + Rows(b, org)
  }

  ghost predicate Enabled(e: Env, s: State, step: Step) {
    match step
    case Begin(t) => t !in s.txs
    case Lock(t, a, input) =>
      && Open(s, t) && a !in s.txs[t].appends
      && (e.lockKey(input.organizationId) in s.locks ==> Holds(e, s, t, input.organizationId))
    case ReadHead(t, a, head) =>
      && UnderWay(s, t, a) && s.txs[t].appends[a].Locked?
      && IsHead(View(s, t, s.txs[t].appends[a].input.organizationId), head)
    case Insert(t, a, _, _, stored) =>
      && UnderWay(s, t, a) && s.txs[t].appends[a].HeadRead?
      && StoredAs(s.txs[t].appends[a].input.metadata, stored)
      && !Waits(s, t, s.txs[t].appends[a].input.organizationId, HashOf(s.txs[t].appends[a].head))
    case Count(t, a) => UnderWay(s, t, a) && s.txs[t].appends[a].Inserted?
    case Fail(t) => Open(s, t)
    case Commit(t) => Open(s, t)
    case Rollback(t) => t in s.txs
  }

  /** An insert waits for the end of a transaction whose row would conflict with it. */
  predicate Waits(s: State, t: TxId, org: Text, previousHash: Option<Text>) {
    exists u :: u in s.txs && u != t && Conflicts(Rows(s.txs[u].pending, org), previousHash)
  }

  /** A commit can come while appends are under way; they then report nothing. */
  function Apply(e: Env, s: State, step: Step): State
    requires Enabled(e, s, step)
  {
    match step
    case Begin(t) => WithTx(s, t, Tx(map[], map[], [], false))
    case Lock(t, a, input) => Advanced(s, t, a, Locked(input)).(locks := s.locks[e.lockKey(input.organizationId) := t])
    case ReadHead(t, a, head) => Advanced(s, t, a, HeadRead(s.txs[t].appends[a].input, head))
    case Insert(t, a, now, id, stored) =>
      var phase := s.txs[t].appends[a];
      if Conflicts(View(s, t, phase.input.organizationId), HashOf(phase.head)) then Failed(s, t)
      else WithRow(s, t, a, phase.input, NextRow(e.crypto, phase.input, phase.head, now, id, stored))
    case Count(t, a) =>
      var phase := s.txs[t].appends[a];
      Counted(s, t, a, phase.input.organizationId, phase.row)
    case Fail(t) => Failed(s, t)
    case Commit(t) =>
      State(Merge(s.committed, s.txs[t].pending), s.txs - {t}, Unlock(s.locks, t), s.reported + s.txs[t].receipts)
    case Rollback(t) => s.(txs := s.txs - {t}, locks := Unlock(s.locks, t))
  }

  ghost predicate Next(e: Env, s: State, s': State) {
    exists step :: Enabled(e, s, step) && s' == Apply(e, s, step)
  }

  const INITIAL := State(map[], map[], map[], [])

  ghost predicate IsRun(e: Env, run: seq<State>) {
    && |run| > 0 && run[0] == INITIAL
    && forall i :: 0 < i < |run| ==> Next(e, run[i - 1], run[i])
  }

  // --------------------------------------------------------------- invariant

  ghost predicate Increasing(rows: seq<Row>) {
    forall i, j :: 0 <= i < j < |rows| ==> rows[i].record.createdAt < rows[j].record.createdAt
  }

  /** The rows are one unforked chain of the tenant, in strict order of time. */
  ghost predicate IsChain(c: Crypto, org: Text, rows: seq<Row>) {
    && Verifies(Hasher(c), rows)
    && Increasing(rows)
    && WellFormedRows(rows)
    && forall i :: 0 <= i < |rows| ==> rows[i].record.organizationId == org
  }

  /** Two rows without a predecessor. */
  predicate Forked(rows: seq<Row>) {
    exists i, j :: 0 <= i < j < |rows| && rows[i].record.previousHash.None? && rows[j].record.previousHash.None?
  }

  predicate Matches(row: Row, r: Receipt) {
    row.id == r.id && row.currentHash == r.currentHash && row.record.previousHash == r.previousHash
  }

  /** The receipt names the row at its 1-based position. */
  predicate Names(rows: seq<Row>, r: Receipt) {
    1 <= r.sequence <= |rows| && Matches(rows[r.sequence - 1], r)
  }

  /** The receipt's row is there, at its position or before. */
  predicate Placed(rows: seq<Row>, r: Receipt) {
    r.sequence <= |rows| && exists k :: 0 <= k < r.sequence && Matches(rows[k], r)
  }

  predicate Told(rows: seq<Row>, r: Receipt, alone: bool) {
    if alone then Names(rows, r) else Placed(rows, r)
  }

  function LastRow(rows: seq<Row>): Option<Row> {
    if rows == [] then None else Some(rows[|rows| - 1])
  }

  predicate Appending(s: State, t: TxId, a: AppendId, org: Text) {
    t in s.txs && a in s.txs[t].appends && s.txs[t].appends[a].input.organizationId == org
  }

  /** No transaction has two appends for the tenant under way. */
  ghost predicate OneAtATime(s: State, org: Text) {
    forall t, a, b :: Appending(s, t, a, org) && Appending(s, t, b, org) ==> a == b
  }

  /** With one append at a time the head that was read is still the last row;
      otherwise it is one of the rows, or there were none. */
  ghost predicate PhaseOk(s: State, t: TxId, org: Text, phase: Phase, alone: bool)
    requires t in s.txs
  {
    match phase
    case Locked(_) => true
    case HeadRead(_, head) =>
      if alone then head == LastRow(View(s, t, org))
      else if head.None? then Rows(s.committed, org) == []
      else head.value in View(s, t, org)
    case Inserted(_, row) =>
      if alone then LastRow(View(s, t, org)) == Some(row) else row in View(s, t, org)
  }

  /** What a transaction sees of a tenant is a chain; or it has two rows without a
      predecessor, as only a tenant that had no row yet can get them. */
  ghost predicate ViewOk(c: Crypto, org: Text, committed: seq<Row>, rows: seq<Row>, alone: bool) {
    IsChain(c, org, rows) || (!alone && Forked(rows) && (committed == [] || Forked(committed)))
  }

  ghost predicate TxOk(e: Env, s: State, t: TxId, org: Text, alone: bool)
    requires t in s.txs
  {
    && ViewOk(e.crypto, org, Rows(s.committed, org), View(s, t, org), alone)
    && (Rows(s.txs[t].pending, org) != [] ==> Holds(e, s, t, org))
    && (forall a :: Appending(s, t, a, org) ==> Holds(e, s, t, org) && PhaseOk(s, t, org, s.txs[t].appends[a], alone))
    && (forall r :: r in s.txs[t].receipts && r.organizationId == org ==>
          Holds(e, s, t, org) && Told(View(s, t, org), r, alone))
  }

  /** Of one tenant: `alone` when no transaction ever has two appends for it under way. */
  ghost predicate Inv(e: Env, s: State, org: Text, alone: bool) {
    && ViewOk(e.crypto, org, Rows(s.committed, org), Rows(s.committed, org), alone)
    && (forall t :: t in s.txs ==> TxOk(e, s, t, org, alone))
    && (forall r :: r in s.reported && r.organizationId == org ==> Told(Rows(s.committed, org), r, alone))
  }

  /** The row computed from the last row extends the chain, whatever the clock says. */
  lemma NextRowExtends(c: Crypto, org: Text, rows: seq<Row>, input: Input, now: int, id: Text, stored: Json)
    requires IsChain(c, org, rows) && input.organizationId == org && StoredAs(input.metadata, stored)
    ensures IsChain(c, org, rows + [NextRow(c, input, LastRow(rows), now, id, stored)])
  {
    var r := NextRecord(input, LastRow(rows), now);
    var row := NextRow(c, input, LastRow(rows), now, id, stored);
    SameMeaningDropping(input.metadata, stored, {PROTO});
    HashExact(c, r, row.record);
    AppendVerifies(Hasher(c), rows, row);
    if rows != [] {
      assert forall i :: 0 <= i < |rows| ==> rows[i].record.createdAt <= rows[|rows| - 1].record.createdAt;
    }
  }

  lemma ChainIsUnforked(c: Crypto, org: Text, rows: seq<Row>)
    requires IsChain(c, org, rows)
    ensures !Forked(rows)
  {
    forall j | 0 < j < |rows| ensures rows[j].record.previousHash.Some? {
      assert RowOk(Hasher(c), rows, j);
    }
  }

  lemma ForkStays(rows: seq<Row>, more: seq<Row>)
    requires rows <= more && Forked(rows)
    ensures Forked(more)
  {
    var i, j :| 0 <= i < j < |rows| && rows[i].record.previousHash.None? && rows[j].record.previousHash.None?;
    assert more[i] == rows[i] && more[j] == rows[j];
  }

  /** An old head has a successor, which the unique constraint protects. */
  lemma OldHeadConflicts(c: Crypto, org: Text, rows: seq<Row>, head: Row)
    requires IsChain(c, org, rows) && head in rows && LastRow(rows) != Some(head)
    ensures Conflicts(rows, Some(head.currentHash))
  {
    var k :| 0 <= k < |rows| && rows[k] == head;
    assert RowOk(Hasher(c), rows, k + 1);
  }

  /** The constraint lets a row onto a chain in two cases: its head is still the last
      row, and the chain grows; or it was computed when there were no rows, and there
      are now, and the ledger forks. */
  lemma InsertOnChain(c: Crypto, org: Text, rows: seq<Row>, input: Input, head: Option<Row>, now: int, id: Text, stored: Json)
    requires IsChain(c, org, rows) && input.organizationId == org && StoredAs(input.metadata, stored)
    requires head.Some? ==> head.value in rows
    requires !Conflicts(rows, HashOf(head))
    ensures var more := rows + [NextRow(c, input, head, now, id, stored)];
            if head == LastRow(rows) then IsChain(c, org, more) else head.None? && Forked(more)
  {
    if head == LastRow(rows) {
      NextRowExtends(c, org, rows, input, now, id, stored);
    } else if head.Some? {
      OldHeadConflicts(c, org, rows, head.value);
    } else {
      var more := rows + [NextRow(c, input, head, now, id, stored)];
      assert RowOk(Hasher(c), rows, 0);
      assert more[0].record.previousHash.None? && more[|rows|].record.previousHash.None?;
    }
  }

  lemma MergeRows(a: map<Text, seq<Row>>, b: map<Text, seq<Row>>, org: Text)
    ensures Rows(Merge(a, b), org) == Rows(a, org) + Rows(b, org)
  {
  }

  lemma ToldOfMore(rows: seq<Row>, more: seq<Row>, r: Receipt, alone: bool)
    requires rows <= more && Told(rows, r, alone)
    ensures Told(more, r, alone)
  {
    if !alone {
      var k :| 0 <= k < r.sequence && Matches(rows[k], r);
      assert more[k] == rows[k];
    }
  }

  // ------------------------------------------------------ every step keeps it

  /** The statements before a commit touch one transaction and perhaps its locks. */
  lemma LocalStep(e: Env, s: State, s': State, t: TxId, org: Text, alone: bool)
    requires Inv(e, s, org, alone) && s'.committed == s.committed && s'.reported == s.reported
    requires s'.txs.Keys == s.txs.Keys + {t} && forall u :: u in s.txs && u != t ==> s'.txs[u] == s.txs[u]
    requires forall u :: u != t && Holds(e, s, u, org) ==> Holds(e, s', u, org)
    requires TxOk(e, s', t, org, alone)
    ensures Inv(e, s', org, alone)
  {
    forall u | u in s'.txs ensures TxOk(e, s', u, org, alone) {
      if u != t {
        assert TxOk(e, s, u, org, alone) && View(s', u, org) == View(s, u, org);
        forall a | Appending(s', u, a, org)
          ensures Holds(e, s', u, org) && PhaseOk(s', u, org, s'.txs[u].appends[a], alone)
        {
          assert Appending(s, u, a, org);
        }
      }
    }
  }

  lemma BeginKeeps(e: Env, s: State, t: TxId, org: Text, alone: bool)
    requires Inv(e, s, org, alone) && Enabled(e, s, Begin(t))
    ensures Inv(e, Apply(e, s, Begin(t)), org, alone)
  {
    var s' := Apply(e, s, Begin(t));
    assert View(s', t, org) == Rows(s.committed, org);
    LocalStep(e, s, s', t, org, alone);
  }

  lemma FailKeeps(e: Env, s: State, t: TxId, org: Text, alone: bool)
    requires Inv(e, s, org, alone) && t in s.txs
    ensures Inv(e, Failed(s, t), org, alone)
  {
    assert View(Failed(s, t), t, org) == Rows(s.committed, org);
    LocalStep(e, s, Failed(s, t), t, org, alone);
  }

  /** A transaction whose rows stay as they are, and one append of which goes on. */
  lemma AdvanceTxOk(e: Env, s: State, s': State, t: TxId, a: AppendId, phase: Phase, org: Text, alone: bool)
    requires t in s.txs && TxOk(e, s, t, org, alone) && s'.committed == s.committed
    requires s'.txs == Advanced(s, t, a, phase).txs
    requires Holds(e, s, t, org) ==> Holds(e, s', t, org)
    requires phase.input.organizationId == org ==> Holds(e, s', t, org) && PhaseOk(s, t, org, phase, alone)
    ensures TxOk(e, s', t, org, alone)
  {
    assert View(s', t, org) == View(s, t, org);
    forall b | Appending(s', t, b, org)
      ensures Holds(e, s', t, org) && PhaseOk(s', t, org, s'.txs[t].appends[b], alone)
    {
      if b != a { assert Appending(s, t, b, org); }
    }
  }

  lemma LockKeeps(e: Env, s: State, t: TxId, a: AppendId, input: Input, org: Text, alone: bool)
    requires Inv(e, s, org, alone) && t in s.txs
    requires e.lockKey(input.organizationId) in s.locks ==> Holds(e, s, t, input.organizationId)
    ensures Inv(e, Advanced(s, t, a, Locked(input)).(locks := s.locks[e.lockKey(input.organizationId) := t]), org, alone)
  {
    var s' := Advanced(s, t, a, Locked(input)).(locks := s.locks[e.lockKey(input.organizationId) := t]);
    AdvanceTxOk(e, s, s', t, a, Locked(input), org, alone);
    LocalStep(e, s, s', t, org, alone);
  }

  /** On a chain the newest row is the last one. */
  lemma HeadIsLast(rows: seq<Row>, head: Option<Row>)
    requires Increasing(rows) && IsHead(rows, head)
    ensures head == LastRow(rows)
  {
  }

  lemma HeadPhaseOk(e: Env, s: State, t: TxId, input: Input, head: Option<Row>, org: Text, alone: bool)
    requires t in s.txs && TxOk(e, s, t, org, alone) && IsHead(View(s, t, org), head)
    ensures PhaseOk(s, t, org, HeadRead(input, head), alone)
  {
    if alone { HeadIsLast(View(s, t, org), head); }
  }

  lemma ReadHeadKeeps(e: Env, s: State, t: TxId, a: AppendId, input: Input, head: Option<Row>, org: Text, alone: bool)
    requires Inv(e, s, org, alone) && t in s.txs && a in s.txs[t].appends && s.txs[t].appends[a].input == input
    requires IsHead(View(s, t, input.organizationId), head)
    ensures Inv(e, Advanced(s, t, a, HeadRead(input, head)), org, alone)
  {
    var s' := Advanced(s, t, a, HeadRead(input, head));
    if input.organizationId == org {
      assert Appending(s, t, a, org);
      HeadPhaseOk(e, s, t, input, head, org, alone);
    }
    AdvanceTxOk(e, s, s', t, a, HeadRead(input, head), org, alone);
    LocalStep(e, s, s', t, org, alone);
  }

  /** What the other appends of the transaction have read stays good when a row is added. */
  lemma PhaseOfMore(s: State, s': State, t: TxId, org: Text, phase: Phase)
    requires t in s.txs && t in s'.txs && s'.committed == s.committed && View(s, t, org) <= View(s', t, org)
    requires PhaseOk(s, t, org, phase, false)
    ensures PhaseOk(s', t, org, phase, false)
  {
  }

  lemma RowViewOk(e: Env, s: State, t: TxId, input: Input, head: Option<Row>, now: int, id: Text, stored: Json, org: Text, alone: bool)
    requires t in s.txs && TxOk(e, s, t, org, alone) && PhaseOk(s, t, org, HeadRead(input, head), alone)
    requires input.organizationId == org && StoredAs(input.metadata, stored)
    requires !Conflicts(View(s, t, org), HashOf(head))
    ensures ViewOk(e.crypto, org, Rows(s.committed, org),
                   View(s, t, org) + [NextRow(e.crypto, input, head, now, id, stored)], alone)
  {
    var rows := View(s, t, org);
    if IsChain(e.crypto, org, rows) {
      InsertOnChain(e.crypto, org, rows, input, head, now, id, stored);
    } else {
      ForkStays(rows, rows + [NextRow(e.crypto, input, head, now, id, stored)]);
    }
  }

  lemma RowTxOk(e: Env, s: State, t: TxId, a: AppendId, input: Input, row: Row, org: Text, alone: bool)
    requires t in s.txs && TxOk(e, s, t, org, alone) && Appending(s, t, a, input.organizationId)
    requires alone ==> OneAtATime(s, org)
    requires input.organizationId == org ==>
               ViewOk(e.crypto, org, Rows(s.committed, org), View(s, t, org) + [row], alone)
    ensures TxOk(e, WithRow(s, t, a, input, row), t, org, alone)
  {
    var s' := WithRow(s, t, a, input, row);
    assert View(s', t, org) == View(s, t, org) + if input.organizationId == org then [row] else [];
    forall b | Appending(s', t, b, org)
      ensures Holds(e, s', t, org) && PhaseOk(s', t, org, s'.txs[t].appends[b], alone)
    {
      assert Appending(s, t, b, org);
      if b != a && input.organizationId == org { PhaseOfMore(s, s', t, org, s.txs[t].appends[b]); }
    }
    forall r | r in s'.txs[t].receipts && r.organizationId == org
      ensures Holds(e, s', t, org) && Told(View(s', t, org), r, alone)
    {
      ToldOfMore(View(s, t, org), View(s', t, org), r, alone);
    }
  }

  lemma RowKeeps(e: Env, s: State, t: TxId, a: AppendId, input: Input, row: Row, org: Text, alone: bool)
    requires Inv(e, s, org, alone) && Appending(s, t, a, input.organizationId)
    requires alone ==> OneAtATime(s, org)
    requires input.organizationId == org ==>
               ViewOk(e.crypto, org, Rows(s.committed, org), View(s, t, org) + [row], alone)
    ensures Inv(e, WithRow(s, t, a, input, row), org, alone)
  {
    RowTxOk(e, s, t, a, input, row, org, alone);
    LocalStep(e, s, WithRow(s, t, a, input, row), t, org, alone);
  }

  lemma InsertKeeps(e: Env, s: State, t: TxId, a: AppendId, now: int, id: Text, stored: Json, org: Text, alone: bool)
    requires Inv(e, s, org, alone) && Enabled(e, s, Insert(t, a, now, id, stored))
    requires alone ==> OneAtATime(s, org)
    ensures Inv(e, Apply(e, s, Insert(t, a, now, id, stored)), org, alone)
  {
    var input, head := s.txs[t].appends[a].input, s.txs[t].appends[a].head;
    if Conflicts(View(s, t, input.organizationId), HashOf(head)) {
      FailKeeps(e, s, t, org, alone);
    } else {
      if input.organizationId == org {
        assert Appending(s, t, a, org);
        RowViewOk(e, s, t, input, head, now, id, stored, org, alone);
      }
      RowKeeps(e, s, t, a, input, NextRow(e.crypto, input, head, now, id, stored), org, alone);
    }
  }

  lemma CountTold(rows: seq<Row>, row: Row, org: Text, alone: bool)
    requires if alone then LastRow(rows) == Some(row) else row in rows
    ensures Told(rows, ReceiptFor(org, row, |rows|), alone)
  {
    if !alone {
      var k :| 0 <= k < |rows| && rows[k] == row;
      assert Matches(rows[k], ReceiptFor(org, row, |rows|));
    }
  }

  lemma CountTxOk(e: Env, s: State, t: TxId, a: AppendId, of: Text, row: Row, org: Text, alone: bool)
    requires t in s.txs && TxOk(e, s, t, org, alone)
    requires of == org ==>
               Holds(e, s, t, org) && if alone then LastRow(View(s, t, org)) == Some(row) else row in View(s, t, org)
    ensures TxOk(e, Counted(s, t, a, of, row), t, org, alone)
  {
    var s' := Counted(s, t, a, of, row);
    var receipt := ReceiptFor(of, row, |View(s, t, of)|);
    assert View(s', t, org) == View(s, t, org);
    forall b | Appending(s', t, b, org)
      ensures Holds(e, s', t, org) && PhaseOk(s', t, org, s'.txs[t].appends[b], alone)
    {
      assert Appending(s, t, b, org);
    }
    forall r | r in s'.txs[t].receipts && r.organizationId == org
      ensures Holds(e, s', t, org) && Told(View(s', t, org), r, alone)
    {
      if r !in s.txs[t].receipts { CountTold(View(s, t, org), row, org, alone); }
    }
  }

  lemma CountKeeps(e: Env, s: State, t: TxId, a: AppendId, input: Input, row: Row, org: Text, alone: bool)
    requires Inv(e, s, org, alone) && t in s.txs && a in s.txs[t].appends && s.txs[t].appends[a] == Inserted(input, row)
    ensures Inv(e, Counted(s, t, a, input.organizationId, row), org, alone)
  {
    if input.organizationId == org { assert Appending(s, t, a, org); }
    CountTxOk(e, s, t, a, input.organizationId, row, org, alone);
    LocalStep(e, s, Counted(s, t, a, input.organizationId, row), t, org, alone);
  }

  /** Ending a transaction without its rows changes nothing for the others. */
  lemma RollbackKeeps(e: Env, s: State, t: TxId, org: Text, alone: bool)
    requires Inv(e, s, org, alone) && Enabled(e, s, Rollback(t))
    ensures Inv(e, Apply(e, s, Rollback(t)), org, alone)
  {
    var s' := Apply(e, s, Rollback(t));
    forall u | u in s'.txs ensures TxOk(e, s', u, org, alone) {
      EndKeepsTx(e, s, s', t, u, org, alone);
    }
  }

  lemma EndKeepsTx(e: Env, s: State, s': State, t: TxId, u: TxId, org: Text, alone: bool)
    requires Inv(e, s, org, alone) && u in s.txs && u != t && u in s'.txs && s'.txs[u] == s.txs[u]
    requires s'.locks == Unlock(s.locks, t) && Rows(s'.committed, org) == Rows(s.committed, org)
    ensures TxOk(e, s', u, org, alone)
  {
    assert TxOk(e, s, u, org, alone) && View(s', u, org) == View(s, u, org);
    forall a | Appending(s', u, a, org)
      ensures Holds(e, s', u, org) && PhaseOk(s', u, org, s'.txs[u].appends[a], alone)
    {
      assert Appending(s, u, a, org);
    }
  }

  /** A transaction that has nothing to do with the tenant sees what is committed. */
  lemma IdleTxOk(e: Env, s: State, t: TxId, org: Text, alone: bool)
    requires t in s.txs && Rows(s.txs[t].pending, org) == [] && forall a :: !Appending(s, t, a, org)
    requires forall r :: r in s.txs[t].receipts ==> r.organizationId != org
    requires ViewOk(e.crypto, org, Rows(s.committed, org), Rows(s.committed, org), alone)
    ensures TxOk(e, s, t, org, alone)
  {
    assert View(s, t, org) == Rows(s.committed, org);
  }

  /** Where the committing transaction added rows, no other one has anything to do. */
  lemma CommitKeepsTx(e: Env, s: State, t: TxId, u: TxId, org: Text, alone: bool)
    requires Inv(e, s, org, alone) && Enabled(e, s, Commit(t)) && u in s.txs && u != t
    requires ViewOk(e.crypto, org, View(s, t, org), View(s, t, org), alone)
    ensures TxOk(e, Apply(e, s, Commit(t)), u, org, alone)
  {
    var s' := Apply(e, s, Commit(t));
    MergeRows(s.committed, s.txs[t].pending, org);
    if Rows(s.txs[t].pending, org) == [] {
      EndKeepsTx(e, s, s', t, u, org, alone);
    } else {
      NotBoth(e, s, t, u, org, alone);
      assert forall a :: Appending(s', u, a, org) ==> Appending(s, u, a, org);
      IdleTxOk(e, s', u, org, alone);
    }
  }

  lemma NotBoth(e: Env, s: State, t: TxId, u: TxId, org: Text, alone: bool)
    requires Inv(e, s, org, alone) && t in s.txs && u in s.txs && u != t && Rows(s.txs[t].pending, org) != []
    ensures Rows(s.txs[u].pending, org) == [] && forall a :: !Appending(s, u, a, org)
    ensures forall r :: r in s.txs[u].receipts ==> r.organizationId != org
  {
    assert TxOk(e, s, t, org, alone) && TxOk(e, s, u, org, alone);
  }

  lemma CommitKeeps(e: Env, s: State, t: TxId, org: Text, alone: bool)
    requires Inv(e, s, org, alone) && Enabled(e, s, Commit(t))
    ensures Inv(e, Apply(e, s, Commit(t)), org, alone)
  {
    var s' := Apply(e, s, Commit(t));
    MergeRows(s.committed, s.txs[t].pending, org);
    assert TxOk(e, s, t, org, alone) && Rows(s'.committed, org) == View(s, t, org);
    forall u | u in s'.txs ensures TxOk(e, s', u, org, alone) {
      CommitKeepsTx(e, s, t, u, org, alone);
    }
    forall r | r in s'.reported && r.organizationId == org ensures Told(Rows(s'.committed, org), r, alone) {
      if r in s.reported { ToldOfMore(Rows(s.committed, org), Rows(s'.committed, org), r, alone); }
    }
  }

  /** Every step keeps the invariant of every tenant, however many appends its
      transaction has under way; for a tenant with one at a time, the stronger one. */
  lemma StepKeeps(e: Env, s: State, step: Step, org: Text, alone: bool)
    requires Inv(e, s, org, alone) && Enabled(e, s, step)
    requires alone ==> OneAtATime(s, org)
    ensures Inv(e, Apply(e, s, step), org, alone)
  {
    match step
    case Begin(t) => BeginKeeps(e, s, t, org, alone);
    case Lock(t, a, input) => LockKeeps(e, s, t, a, input, org, alone);
    case ReadHead(t, a, head) => ReadHeadKeeps(e, s, t, a, s.txs[t].appends[a].input, head, org, alone);
    case Insert(t, a, now, id, stored) => InsertKeeps(e, s, t, a, now, id, stored, org, alone);
    case Count(t, a) => CountKeeps(e, s, t, a, s.txs[t].appends[a].input, s.txs[t].appends[a].row, org, alone);
    case Fail(t) => FailKeeps(e, s, t, org, alone);
    case Commit(t) => CommitKeeps(e, s, t, org, alone);
    case Rollback(t) => RollbackKeeps(e, s, t, org, alone);
  }

  lemma StepOnward(e: Env, s: State, step: Step, org: Text)
    requires Enabled(e, s, step)
    ensures Rows(s.committed, org) <= Rows(Apply(e, s, step).committed, org)
  {
    if step.Commit? { MergeRows(s.committed, s.txs[step.t].pending, org); }
  }

  // ------------------------------------------------------------ main results

  /** Up to the `i`-th state no transaction has two appends for the tenant under way. */
  ghost predicate OneAtATimeUntil(run: seq<State>, i: nat, org: Text)
    requires i < |run|
  {
    forall k :: 0 <= k <= i ==> OneAtATime(run[k], org)
  }

  lemma StepOf(e: Env, run: seq<State>, i: nat) returns (step: Step)
    requires IsRun(e, run) && 0 < i < |run|
    ensures Enabled(e, run[i - 1], step) && run[i] == Apply(e, run[i - 1], step)
  {
    assert Next(e, run[i - 1], run[i]);
    step :| Enabled(e, run[i - 1], step) && run[i] == Apply(e, run[i - 1], step);
  }

  lemma {:induction false} RunKeeps(e: Env, run: seq<State>, i: nat, org: Text, alone: bool)
    requires IsRun(e, run) && i < |run| && (alone ==> OneAtATimeUntil(run, i, org))
    ensures Inv(e, run[i], org, alone)
  {
    if i > 0 {
      RunKeeps(e, run, i - 1, org, alone);
      var step := StepOf(e, run, i);
      StepKeeps(e, run[i - 1], step, org, alone);
    }
  }

  /** The rows as a query ordered by creation time returns them. */
  ghost predicate InVerifyOrder(rows: seq<Row>, sorted: seq<Row>) {
    multiset(rows) == multiset(sorted)
    && forall i, j :: 0 <= i < j < |sorted| ==> sorted[i].record.createdAt <= sorted[j].record.createdAt
  }

  lemma LastAgrees(rows: seq<Row>, sorted: seq<Row>)
    requires Increasing(rows) && InVerifyOrder(rows, sorted) && rows != [] && sorted != []
    ensures rows[|rows| - 1] == sorted[|sorted| - 1]
  {
    var r, q := rows[|rows| - 1], sorted[|sorted| - 1];
    assert r in multiset(sorted) && q in multiset(rows);
    var i :| 0 <= i < |sorted| && sorted[i] == r;
    var j :| 0 <= j < |rows| && rows[j] == q;
  }

  lemma DropLast(rows: seq<Row>)
    requires rows != []
    ensures multiset(rows[..|rows| - 1]) == multiset(rows) - multiset{rows[|rows| - 1]}
  {
    assert rows == rows[..|rows| - 1] + [rows[|rows| - 1]];
  }

  lemma WithoutLast(rows: seq<Row>, sorted: seq<Row>)
    requires Increasing(rows) && InVerifyOrder(rows, sorted) && rows != [] && sorted != []
    ensures rows[|rows| - 1] == sorted[|sorted| - 1]
    ensures Increasing(rows[..|rows| - 1]) && InVerifyOrder(rows[..|rows| - 1], sorted[..|sorted| - 1])
  {
    LastAgrees(rows, sorted);
    DropLast(rows);
    DropLast(sorted);
  }

  /** Creation time orders a chain without ambiguity. */
  lemma {:induction false} VerifyOrderUnique(rows: seq<Row>, sorted: seq<Row>)
    requires Increasing(rows) && InVerifyOrder(rows, sorted)
    ensures sorted == rows
    decreases |rows|
  {
    assert |multiset(rows)| == |rows| && |multiset(sorted)| == |sorted|;
    if rows != [] {
      WithoutLast(rows, sorted);
      VerifyOrderUnique(rows[..|rows| - 1], sorted[..|sorted| - 1]);
      assert rows == rows[..|rows| - 1] + [rows[|rows| - 1]];
      assert sorted == sorted[..|sorted| - 1] + [sorted[|sorted| - 1]];
    }
  }

  /** The integrity check reads the rows in creation order. Of a tenant without a fork
      it accepts them, and of one with a fork it does not, in whatever order ties come. */
  lemma LedgerVerifiesExactly(e: Env, run: seq<State>, i: nat, org: Text, sorted: seq<Row>)
    requires IsRun(e, run) && i < |run| && InVerifyOrder(Rows(run[i].committed, org), sorted)
    ensures Verifies(Hasher(e.crypto), sorted) <==> !Forked(Rows(run[i].committed, org))
  {
    RunKeeps(e, run, i, org, false);
    if Forked(Rows(run[i].committed, org)) {
      ForkFails(Hasher(e.crypto), Rows(run[i].committed, org), sorted);
    } else {
      VerifyOrderUnique(Rows(run[i].committed, org), sorted);
    }
  }

  lemma ForkFails(hash: Record -> Text, rows: seq<Row>, sorted: seq<Row>)
    requires Forked(rows) && multiset(rows) == multiset(sorted)
    ensures !Verifies(hash, sorted)
  {
    var i, j :| 0 <= i < j < |rows| && rows[i].record.previousHash.None? && rows[j].record.previousHash.None?;
    TwoOf(rows, i, j);
    if forall k :: 0 < k < |sorted| ==> sorted[k].record.previousHash.Some? {
      OneOf(sorted, rows[i], rows[j]);
    } else {
      var k :| 0 < k < |sorted| && !sorted[k].record.previousHash.Some?;
      assert !RowOk(hash, sorted, k);
    }
  }

  lemma OneOf(sorted: seq<Row>, r: Row, q: Row)
    requires r.record.previousHash.None? && q.record.previousHash.None?
    requires forall k :: 0 < k < |sorted| ==> sorted[k].record.previousHash.Some?
    ensures !(multiset{r, q} <= multiset(sorted))
  {
    if sorted != [] {
      assert sorted == [sorted[0]] + sorted[1..];
      assert r !in multiset(sorted[1..]) && q !in multiset(sorted[1..]);
      assert multiset(sorted)[r] == multiset{sorted[0]}[r] && multiset(sorted)[q] == multiset{sorted[0]}[q];
    }
    assert multiset{r, q}[r] > multiset(sorted)[r] || multiset{r, q}[q] > multiset(sorted)[q];
  }

  lemma TwoOf(rows: seq<Row>, i: nat, j: nat)
    requires i < j < |rows|
    ensures multiset{rows[i], rows[j]} <= multiset(rows)
  {
    assert rows == rows[..i] + [rows[i]] + rows[i + 1..j] + [rows[j]] + rows[j + 1..];
  }

  /** Where no transaction ever has two appends for the tenant under way, in every
      interleaving, with any clocks, failures, commits and roll-backs, the tenant's
      committed rows read in creation order are one unforked chain that verifies, and
      every receipt of a committed append names its row by its 1-based position. */
  lemma CommittedLedgerVerifies(e: Env, run: seq<State>, i: nat, org: Text, sorted: seq<Row>)
    requires IsRun(e, run) && i < |run| && OneAtATimeUntil(run, i, org)
    requires InVerifyOrder(Rows(run[i].committed, org), sorted)
    ensures IsChain(e.crypto, org, sorted)
    ensures forall r :: r in run[i].reported && r.organizationId == org ==> Names(sorted, r)
  {
    RunKeeps(e, run, i, org, true);
    VerifyOrderUnique(Rows(run[i].committed, org), sorted);
  }

  /** The ledger only ever grows at its end. */
  lemma {:induction false} LedgerIsAppendOnly(e: Env, run: seq<State>, i: nat, j: nat, org: Text)
    requires IsRun(e, run) && i <= j < |run|
    ensures Rows(run[i].committed, org) <= Rows(run[j].committed, org)
    decreases j
  {
    if i < j {
      LedgerIsAppendOnly(e, run, i, j - 1, org);
      var step := StepOf(e, run, j);
      StepOnward(e, run[j - 1], step, org);
    }
  }

  /** The tenant has rows committed, and no fork. */
  predicate Started(s: State, org: Text) {
    Rows(s.committed, org) != [] && !Forked(Rows(s.committed, org))
  }

  lemma StartedView(e: Env, run: seq<State>, i: nat, t: TxId, org: Text)
    requires IsRun(e, run) && i < |run| && t in run[i].txs && Started(run[i], org)
    ensures !Forked(View(run[i], t, org))
  {
    RunKeeps(e, run, i, org, false);
    assert TxOk(e, run[i], t, org, false);
    if IsChain(e.crypto, org, View(run[i], t, org)) { ChainIsUnforked(e.crypto, org, View(run[i], t, org)); }
  }

  lemma StartedStep(e: Env, s: State, step: Step, org: Text)
    requires Enabled(e, s, step) && Started(s, org)
    requires step.Commit? ==> !Forked(View(s, step.t, org))
    ensures Started(Apply(e, s, step), org)
  {
    if step.Commit? { MergeRows(s.committed, s.txs[step.t].pending, org); }
  }

  lemma StartedNext(e: Env, run: seq<State>, j: nat, org: Text)
    requires IsRun(e, run) && 0 < j < |run| && Started(run[j - 1], org)
    ensures Started(run[j], org)
  {
    var step := StepOf(e, run, j);
    if step.Commit? { StartedView(e, run, j - 1, step.t, org); }
    StartedStep(e, run[j - 1], step, org);
  }

  /** A tenant that has a row committed and no fork never gets one, whatever
      transactions do: only the first rows of a ledger can fork it. */
  lemma {:induction false} StartedLedgerNeverForks(e: Env, run: seq<State>, i: nat, j: nat, org: Text)
    requires IsRun(e, run) && i <= j < |run| && Started(run[i], org)
    ensures Started(run[j], org)
    decreases j
  {
    if i < j {
      StartedLedgerNeverForks(e, run, i, j - 1, org);
      StartedNext(e, run, j, org);
    }
  }

  /** When an append is about to insert, the unique constraint on (tenant, previousHash)
      rejects its row if and only if the head it read has had a successor since, short of
      a hash collision; the rejection fails the transaction, even a caller's own. */
  lemma RejectedExactly(e: Env, run: seq<State>, i: nat, t: TxId, a: AppendId, org: Text)
    requires IsRun(e, run) && i < |run| && Appending(run[i], t, a, org) && run[i].txs[t].appends[a].HeadRead?
    requires !Forked(View(run[i], t, org))
    requires !Collision(Hasher(e.crypto), e.crypto.iso, View(run[i], t, org), View(run[i], t, org))
    ensures var head := run[i].txs[t].appends[a].head;
            Conflicts(View(run[i], t, org), HashOf(head)) <==> head.Some? && head != LastRow(View(run[i], t, org))
  {
    RunKeeps(e, run, i, org, false);
    assert TxOk(e, run[i], t, org, false);
    var head, rows := run[i].txs[t].appends[a].head, View(run[i], t, org);
    if head.Some? && head != LastRow(rows) {
      OldHeadConflicts(e.crypto, org, rows, head.value);
    } else if Conflicts(rows, HashOf(head)) {
      var k :| 0 <= k < |rows| && rows[k].record.previousHash == HashOf(head);
      HeadHasNoSuccessor(Hasher(e.crypto), e.crypto.iso, rows, k);
    }
  }

  /** So with one append at a time the constraint is only a backstop: no row of the
      tenant that any transaction sees, committed or pending, conflicts with the row
      about to be inserted, short of a hash collision. */
  lemma BackstopNeverFires(e: Env, run: seq<State>, i: nat, t: TxId, a: AppendId, u: TxId, org: Text)
    requires IsRun(e, run) && i < |run| && OneAtATimeUntil(run, i, org) && u in run[i].txs
    requires Appending(run[i], t, a, org) && run[i].txs[t].appends[a].HeadRead?
    requires !Collision(Hasher(e.crypto), e.crypto.iso, View(run[i], t, org), View(run[i], t, org))
    ensures !Conflicts(View(run[i], u, org), HashOf(run[i].txs[t].appends[a].head))
  {
    RunKeeps(e, run, i, org, true);
    assert TxOk(e, run[i], t, org, true) && TxOk(e, run[i], u, org, true);
    assert View(run[i], u, org) <= View(run[i], t, org);
    ChainIsUnforked(e.crypto, org, View(run[i], t, org));
    RejectedExactly(e, run, i, t, a, org);
  }

  /** Of all rows of an unforked tenant that any two transactions see, committed or
      pending, no two at different places of the chain name the same predecessor, short
      of a hash collision; what two transactions see at one place is one row. */
  lemma NoForkAnywhere(e: Env, run: seq<State>, i: nat, org: Text, t: TxId, u: TxId, j: nat, k: nat)
    requires IsRun(e, run) && i < |run| && t in run[i].txs && u in run[i].txs
    requires j < |View(run[i], t, org)| && k < |View(run[i], u, org)|
    requires !Forked(View(run[i], t, org)) && !Forked(View(run[i], u, org))
    requires !Collision(Hasher(e.crypto), e.crypto.iso, View(run[i], t, org), View(run[i], t, org))
    requires !Collision(Hasher(e.crypto), e.crypto.iso, View(run[i], u, org), View(run[i], u, org))
    ensures View(run[i], t, org)[j].record.previousHash == View(run[i], u, org)[k].record.previousHash <==> j == k
    ensures j == k ==> View(run[i], t, org)[j] == View(run[i], u, org)[k]
  {
    RunKeeps(e, run, i, org, false);
    assert TxOk(e, run[i], t, org, false) && TxOk(e, run[i], u, org, false);
    assert t != u ==> Rows(run[i].txs[t].pending, org) == [] || Rows(run[i].txs[u].pending, org) == [];
    var longer := if |View(run[i], t, org)| >= |View(run[i], u, org)| then View(run[i], t, org) else View(run[i], u, org);
    assert View(run[i], t, org) <= longer && View(run[i], u, org) <= longer;
    if j < k { HashesDistinct(Hasher(e.crypto), e.crypto.iso, longer, j, k); }
    if k < j { HashesDistinct(Hasher(e.crypto), e.crypto.iso, longer, k, j); }
  }

  lemma StepOfFailed(e: Env, s: State, step: Step, t: TxId)
    requires Enabled(e, s, step) && t in s.txs && s.txs[t].failed
    ensures var s' := Apply(e, s, step);
            if t in s'.txs then s'.txs[t] == s.txs[t] else s'.committed == s.committed && s'.reported == s.reported
  {
  }

  /** A failed statement blocks the caller: the transaction stays failed as long as it
      lasts, and its end commits nothing. */
  lemma {:induction false} FailureBlocksCaller(e: Env, run: seq<State>, i: nat, j: nat, t: TxId)
    requires IsRun(e, run) && i <= j < |run| - 1 && (forall k :: i <= k <= j ==> t in run[k].txs) && run[i].txs[t].failed
    ensures if t in run[j + 1].txs then run[j + 1].txs[t] == run[i].txs[t]
            else run[j + 1].committed == run[j].committed && run[j + 1].reported == run[j].reported
    decreases j
  {
    if i < j { FailureBlocksCaller(e, run, i, j - 1, t); }
    var step := StepOf(e, run, j + 1);
    StepOfFailed(e, run[j], step, t);
  }

  // ---------------------------------------------- where committed rows come from

  /** The step that leads from the `k`-th state to the next. */
  ghost predicate Took(e: Env, run: seq<State>, k: nat, step: Step) {
    k + 1 < |run| && Enabled(e, run[k], step) && run[k + 1] == Apply(e, run[k], step)
  }

  /** An append was asked for at some step, and its row inserted at a later one. */
  datatype Origin = Origin(
    t: TxId, a: AppendId, input: Input, asked: nat, inserted: nat, head: Option<Row>, now: int, id: Text, stored: Json)

  ghost predicate Traced(e: Env, run: seq<State>, row: Row, o: Origin) {
    && o.asked < o.inserted
    && Took(e, run, o.asked, Lock(o.t, o.a, o.input))
    && Took(e, run, o.inserted, Insert(o.t, o.a, o.now, o.id, o.stored))
    && run[o.inserted].txs[o.t].appends[o.a] == HeadRead(o.input, o.head)
    && StoredAs(o.input.metadata, o.stored)
    && Says(row, o.input, o.id, o.stored) && Succeeds(row, o.head, o.now)
  }

  /** The input of an append under way is the one it was asked to record. */
  lemma {:induction false} InputAsked(e: Env, run: seq<State>, i: nat, t: TxId, a: AppendId) returns (k: nat)
    requires IsRun(e, run) && i < |run| && t in run[i].txs && a in run[i].txs[t].appends
    ensures k < i && Took(e, run, k, Lock(t, a, run[i].txs[t].appends[a].input))
  {
    var step := StepOf(e, run, i);
    if step == Lock(t, a, run[i].txs[t].appends[a].input) {
      k := i - 1;
    } else {
      AppendBefore(e, run[i - 1], step, t, a);
      k := InputAsked(e, run, i - 1, t, a);
    }
  }

  lemma AppendBefore(e: Env, s: State, step: Step, t: TxId, a: AppendId)
    requires Enabled(e, s, step) && t in Apply(e, s, step).txs && a in Apply(e, s, step).txs[t].appends
    requires step != Lock(t, a, Apply(e, s, step).txs[t].appends[a].input)
    ensures t in s.txs && a in s.txs[t].appends
    ensures s.txs[t].appends[a].input == Apply(e, s, step).txs[t].appends[a].input
  {
  }

  /** The row that an insert computes. */
  predicate NewRow(e: Env, s: State, step: Step, row: Row)
    requires step.Insert? && UnderWay(s, step.t, step.a) && s.txs[step.t].appends[step.a].HeadRead?
  {
    var phase := s.txs[step.t].appends[step.a];
    row == NextRow(e.crypto, phase.input, phase.head, step.now, step.id, step.stored)
  }

  /** A row that a transaction has gained was inserted by this step. */
  lemma RowBefore(e: Env, s: State, step: Step, t: TxId, org: Text, row: Row)
    requires Enabled(e, s, step) && t in Apply(e, s, step).txs && row in Rows(Apply(e, s, step).txs[t].pending, org)
    ensures || (t in s.txs && row in Rows(s.txs[t].pending, org))
            || (step.Insert? && step.t == t && s.txs[t].appends[step.a].input.organizationId == org
                && NewRow(e, s, step, row))
  {
  }

  lemma NewRowTraced(e: Env, run: seq<State>, i: nat, step: Step, row: Row) returns (o: Origin)
    requires IsRun(e, run) && 0 < i < |run| && Took(e, run, i - 1, step) && step.Insert?
    requires NewRow(e, run[i - 1], step, row)
    ensures Traced(e, run, row, o) && o.inserted == i - 1 && o.input == run[i - 1].txs[step.t].appends[step.a].input
  {
    var phase := run[i - 1].txs[step.t].appends[step.a];
    var k := InputAsked(e, run, i - 1, step.t, step.a);
    NextRowSays(e.crypto, phase.input, phase.head, step.now, step.id, step.stored);
    o := Origin(step.t, step.a, phase.input, k, i - 1, phase.head, step.now, step.id, step.stored);
  }

  /** A pending row was there one state earlier, or it is traced. */
  lemma PendingBefore(e: Env, run: seq<State>, i: nat, t: TxId, org: Text, row: Row) returns (earlier: bool, o: Option<Origin>)
    requires IsRun(e, run) && i < |run| && t in run[i].txs && row in Rows(run[i].txs[t].pending, org)
    ensures i > 0
    ensures if earlier then t in run[i - 1].txs && row in Rows(run[i - 1].txs[t].pending, org)
            else o.Some? && Traced(e, run, row, o.value) && o.value.inserted < i && o.value.input.organizationId == org
  {
    var step := StepOf(e, run, i);
    RowBefore(e, run[i - 1], step, t, org, row);
    earlier, o := t in run[i - 1].txs && row in Rows(run[i - 1].txs[t].pending, org), None;
    if !earlier {
      var origin := NewRowTraced(e, run, i, step, row);
      o := Some(origin);
    }
  }

  lemma {:induction false} PendingTraced(e: Env, run: seq<State>, i: nat, t: TxId, org: Text, row: Row) returns (o: Origin)
    requires IsRun(e, run) && i < |run| && t in run[i].txs && row in Rows(run[i].txs[t].pending, org)
    ensures Traced(e, run, row, o) && o.inserted < i && o.input.organizationId == org
  {
    var earlier, origin := PendingBefore(e, run, i, t, org, row);
    if earlier {
      o := PendingTraced(e, run, i - 1, t, org, row);
    } else {
      o := origin.value;
    }
  }

  /** A committed row was so one state earlier, or some transaction had it pending. */
  lemma CommittedBefore(e: Env, run: seq<State>, i: nat, org: Text, row: Row) returns (t: TxId)
    requires IsRun(e, run) && i < |run| && row in Rows(run[i].committed, org)
    ensures i > 0
    ensures row in Rows(run[i - 1].committed, org) || (t in run[i - 1].txs && row in Rows(run[i - 1].txs[t].pending, org))
  {
    var step := StepOf(e, run, i);
    t := step.t;
    if step.Commit? { MergeRows(run[i - 1].committed, run[i - 1].txs[t].pending, org); }
  }

  /** Every committed row of a tenant was inserted by an append for that tenant, and says
      what that append was asked to record, field by field, whatever else went on. */
  lemma {:induction false} CommittedTraced(e: Env, run: seq<State>, i: nat, org: Text, row: Row) returns (o: Origin)
    requires IsRun(e, run) && i < |run| && row in Rows(run[i].committed, org)
    ensures Traced(e, run, row, o) && o.inserted < i && o.input.organizationId == org
  {
    var t := CommittedBefore(e, run, i, org, row);
    if row in Rows(run[i - 1].committed, org) {
      o := CommittedTraced(e, run, i - 1, org, row);
    } else {
      o := PendingTraced(e, run, i - 1, t, org, row);
    }
  }

  // ------------------------------------------- two appends of one transaction

  /** The appends for a tenant that a transaction has under way. */
  function InFlight(s: State, t: TxId, org: Text): set<AppendId>
    requires t in s.txs
  {
    set a | a in s.txs[t].appends && s.txs[t].appends[a].input.organizationId == org
  }

  predicate AtMost(n: nat, s: State, org: Text) {
    forall t :: t in s.txs ==> |InFlight(s, t, org)| <= n
  }

  /** A run in which callers never have more than `n` appends under way in one
      transaction for the tenant. */
  ghost predicate RunOfAtMost(e: Env, n: nat, run: seq<State>, org: Text) {
    IsRun(e, run) && forall k :: 0 <= k < |run| ==> AtMost(n, run[k], org)
  }

  lemma RunGoesOn(e: Env, n: nat, run: seq<State>, step: Step, next: State, org: Text)
    requires RunOfAtMost(e, n, run, org) && Enabled(e, run[|run| - 1], step)
    requires next == Apply(e, run[|run| - 1], step) && AtMost(n, next, org)
    ensures RunOfAtMost(e, n, run + [next], org)
  {
    var longer := run + [next];
    forall i | 0 < i < |longer| ensures Next(e, longer[i - 1], longer[i]) {
      if i < |run| { assert Next(e, run[i - 1], run[i]); }
    }
  }

  /** The only transaction is `tx`, which holds the lock. */
  function Only(key: int, tx: Tx): State {
    State(map[], map[0 := tx], map[key := 0], [])
  }

  function Two(first: Phase, second: Phase): map<AppendId, Phase> {
    map[0 := first, 1 := second]
  }

  lemma OnlyTwo(key: int, tx: Tx, org: Text)
    requires tx.appends.Keys <= {0, 1}
    ensures AtMost(2, Only(key, tx), org)
  {
    var s := Only(key, tx);
    forall t | t in s.txs ensures |InFlight(s, t, org)| <= 2 {
      assert InFlight(s, t, org) <= {0, 1} && |{0, 1}| == 2;
      Subset(InFlight(s, t, org), {0, 1});
    }
  }

  lemma {:induction false} Subset(a: set<AppendId>, b: set<AppendId>)
    requires a <= b
    ensures |a| <= |b|
  {
    if a != {} {
      var x :| x in a;
      Subset(a - {x}, b - {x});
    }
  }

  /** One step of the only transaction. */
  lemma OnlyGoesOn(e: Env, run: seq<State>, step: Step, key: int, tx: Tx, next: Tx, org: Text) returns (longer: seq<State>)
    requires RunOfAtMost(e, 2, run, org) && run[|run| - 1] == Only(key, tx) && Enabled(e, Only(key, tx), step)
    requires Apply(e, Only(key, tx), step) == WithTx(Only(key, tx), 0, next) && next.appends.Keys <= {0, 1}
    ensures RunOfAtMost(e, 2, longer, org) && longer[|longer| - 1] == Only(key, next)
  {
    OnlyTwo(key, next, org);
    assert map[0 := tx][0 := next] == map[0 := next];
    RunGoesOn(e, 2, run, step, Only(key, next), org);
    longer := run + [Only(key, next)];
  }

  lemma FirstLocked(e: Env, a: Input) returns (run: seq<State>)
    ensures RunOfAtMost(e, 2, run, a.organizationId)
    ensures run[|run| - 1] == Only(e.lockKey(a.organizationId), Tx(map[], map[0 := Locked(a)], [], false))
  {
    var org, key := a.organizationId, e.lockKey(a.organizationId);
    var begun := State(map[], map[0 := Tx(map[], map[], [], false)], map[], []);
    assert InFlight(begun, 0, org) == {};
    RunGoesOn(e, 2, [INITIAL], Begin(0), begun, org);
    var tx := Tx(map[], map[0 := Locked(a)], [], false);
    OnlyTwo(key, tx, org);
    assert Apply(e, begun, Lock(0, 0, a)) == Only(key, tx);
    RunGoesOn(e, 2, [INITIAL] + [begun], Lock(0, 0, a), Only(key, tx), org);
    run := [INITIAL] + [begun] + [Only(key, tx)];
  }

  /** The second append takes the lock that its transaction already has. */
  lemma BothLocked(e: Env, a: Input, b: Input) returns (run: seq<State>)
    requires a.organizationId == b.organizationId
    ensures RunOfAtMost(e, 2, run, a.organizationId)
    ensures run[|run| - 1] == Only(e.lockKey(a.organizationId), Tx(map[], Two(Locked(a), Locked(b)), [], false))
  {
    var org, key := a.organizationId, e.lockKey(a.organizationId);
    run := FirstLocked(e, a);
    assert map[0 := Locked(a)][1 := Locked(b)] == Two(Locked(a), Locked(b));
    assert map[key := 0][key := 0] == map[key := 0];
    run := OnlyGoesOn(e, run, Lock(0, 1, b), key, Tx(map[], map[0 := Locked(a)], [], false),
                      Tx(map[], Two(Locked(a), Locked(b)), [], false), org);
  }

  lemma BothReadNothing(e: Env, a: Input, b: Input) returns (run: seq<State>)
    requires a.organizationId == b.organizationId
    ensures RunOfAtMost(e, 2, run, a.organizationId)
    ensures run[|run| - 1] ==
            Only(e.lockKey(a.organizationId), Tx(map[], Two(HeadRead(a, None), HeadRead(b, None)), [], false))
  {
    var org, key := a.organizationId, e.lockKey(a.organizationId);
    run := BothLocked(e, a, b);
    assert Two(Locked(a), Locked(b))[0 := HeadRead(a, None)] == Two(HeadRead(a, None), Locked(b));
    assert Two(HeadRead(a, None), Locked(b))[1 := HeadRead(b, None)] == Two(HeadRead(a, None), HeadRead(b, None));
    run := OnlyGoesOn(e, run, ReadHead(0, 0, None), key, Tx(map[], Two(Locked(a), Locked(b)), [], false),
                      Tx(map[], Two(HeadRead(a, None), Locked(b)), [], false), org);
    run := OnlyGoesOn(e, run, ReadHead(0, 1, None), key, Tx(map[], Two(HeadRead(a, None), Locked(b)), [], false),
                      Tx(map[], Two(HeadRead(a, None), HeadRead(b, None)), [], false), org);
  }

  function FirstRow(e: Env, input: Input, now: int, id: Text): Row {
    NextRow(e.crypto, input, None, now, id, input.metadata)
  }

  lemma FirstInserted(e: Env, a: Input, b: Input, now: int, id: Text) returns (run: seq<State>)
    requires a.organizationId == b.organizationId && WellFormed(a.metadata)
    ensures RunOfAtMost(e, 2, run, a.organizationId)
    ensures var r := FirstRow(e, a, now, id);
            run[|run| - 1] == Only(e.lockKey(a.organizationId),
                                   Tx(map[a.organizationId := [r]], Two(Inserted(a, r), HeadRead(b, None)), [], false))
  {
    var org, key, r := a.organizationId, e.lockKey(a.organizationId), FirstRow(e, a, now, id);
    run := BothReadNothing(e, a, b);
    assert Two(HeadRead(a, None), HeadRead(b, None))[0 := Inserted(a, r)] == Two(Inserted(a, r), HeadRead(b, None));
    assert [] + [r] == [r];
    assert Add(map[], org, r) == map[org := [r]];
    run := OnlyGoesOn(e, run, Insert(0, 0, now, id, a.metadata), key,
                      Tx(map[], Two(HeadRead(a, None), HeadRead(b, None)), [], false),
                      Tx(map[org := [r]], Two(Inserted(a, r), HeadRead(b, None)), [], false), org);
  }

  lemma BothInserted(e: Env, a: Input, b: Input, now: int, later: int, id: Text, other: Text) returns (run: seq<State>)
    requires a.organizationId == b.organizationId && WellFormed(a.metadata) && WellFormed(b.metadata)
    ensures RunOfAtMost(e, 2, run, a.organizationId)
    ensures var r, q := FirstRow(e, a, now, id), FirstRow(e, b, later, other);
            run[|run| - 1] == Only(e.lockKey(a.organizationId),
                                   Tx(map[a.organizationId := [r, q]], Two(Inserted(a, r), Inserted(b, q)), [], false))
  {
    var org, key := a.organizationId, e.lockKey(a.organizationId);
    var r, q := FirstRow(e, a, now, id), FirstRow(e, b, later, other);
    run := FirstInserted(e, a, b, now, id);
    assert Two(Inserted(a, r), HeadRead(b, None))[1 := Inserted(b, q)] == Two(Inserted(a, r), Inserted(b, q));
    assert [r] + [q] == [r, q];
    assert map[org := [r]][org := [r, q]] == map[org := [r, q]];
    run := OnlyGoesOn(e, run, Insert(0, 1, later, other, b.metadata), key,
                      Tx(map[org := [r]], Two(Inserted(a, r), HeadRead(b, None)), [], false),
                      Tx(map[org := [r, q]], Two(Inserted(a, r), Inserted(b, q)), [], false), org);
  }

  lemma BothCounted(e: Env, run: seq<State>, key: int, org: Text, a: Input, b: Input, r: Row, q: Row)
    returns (longer: seq<State>)
    requires RunOfAtMost(e, 2, run, org) && a.organizationId == b.organizationId == org
    requires run[|run| - 1] == Only(key, Tx(map[org := [r, q]], Two(Inserted(a, r), Inserted(b, q)), [], false))
    ensures RunOfAtMost(e, 2, longer, org)
    ensures longer[|longer| - 1] ==
            Only(key, Tx(map[org := [r, q]], map[], [ReceiptFor(org, r, 2), ReceiptFor(org, q, 2)], false))
  {
    var first, second := ReceiptFor(org, r, 2), ReceiptFor(org, q, 2);
    assert Two(Inserted(a, r), Inserted(b, q)) - {0} == map[1 := Inserted(b, q)];
    assert map[1 := Inserted(b, q)] - {1} == map[];
    assert [] + [first] == [first] && [first] + [second] == [first, second];
    longer := OnlyGoesOn(e, run, Count(0, 0), key, Tx(map[org := [r, q]], Two(Inserted(a, r), Inserted(b, q)), [], false),
                         Tx(map[org := [r, q]], map[1 := Inserted(b, q)], [first], false), org);
    longer := OnlyGoesOn(e, longer, Count(0, 1), key, Tx(map[org := [r, q]], map[1 := Inserted(b, q)], [first], false),
                         Tx(map[org := [r, q]], map[], [first, second], false), org);
  }

  /** Two appends of one transaction, the first of a tenant: the lock does not keep
      them apart, both find no row, both insert a row without a predecessor, and the
      committed ledger is forked, for every tenant and whatever the clocks say. */
  lemma OverlapForks(e: Env, a: Input, b: Input, now: int, later: int, id: Text, other: Text) returns (run: seq<State>)
    requires a.organizationId == b.organizationId && WellFormed(a.metadata) && WellFormed(b.metadata)
    ensures RunOfAtMost(e, 2, run, a.organizationId)
    ensures var rows := Rows(run[|run| - 1].committed, a.organizationId);
            rows == [FirstRow(e, a, now, id), FirstRow(e, b, later, other)] && Forked(rows)
  {
    var org, key := a.organizationId, e.lockKey(a.organizationId);
    var r, q := FirstRow(e, a, now, id), FirstRow(e, b, later, other);
    run := BothInserted(e, a, b, now, later, id, other);
    run := BothCounted(e, run, key, org, a, b, r, q);
    var tx := Tx(map[org := [r, q]], map[], [ReceiptFor(org, r, 2), ReceiptFor(org, q, 2)], false);
    var end := State(map[org := [r, q]], map[], map[], tx.receipts);
    assert [] + [r, q] == [r, q];
    assert Merge(map[], map[org := [r, q]]) == map[org := [r, q]];
    assert Apply(e, Only(key, tx), Commit(0)) == end;
    RunGoesOn(e, 2, run, Commit(0), end, org);
    run := run + [end];
    assert [r, q][0].record.previousHash.None? && [r, q][1].record.previousHash.None?;
  }

  /** The tenant's committed rows are one chain, and its receipts name their rows. */
  ghost predicate LedgerOk(e: Env, s: State, org: Text) {
    && IsChain(e.crypto, org, Rows(s.committed, org))
    && forall r :: r in s.reported && r.organizationId == org ==> Names(Rows(s.committed, org), r)
  }

  lemma AloneIsOneAtATime(s: State, org: Text)
    requires AtMost(1, s, org)
    ensures OneAtATime(s, org)
  {
    forall t, a, b | Appending(s, t, a, org) && Appending(s, t, b, org) ensures a == b {
      assert {a, b} <= InFlight(s, t, org);
      Subset({a, b}, InFlight(s, t, org));
    }
  }

  /** If callers keep to at most `n` appends under way in one transaction for a tenant,
      its ledger is in order after every run if and only if `n` is at most one. */
  lemma InOrderExactly(e: Env, n: nat, org: Text)
    ensures (forall run :: RunOfAtMost(e, n, run, org) ==> LedgerOk(e, run[|run| - 1], org)) <==> n <= 1
  {
    if n <= 1 {
      forall run | RunOfAtMost(e, n, run, org) ensures LedgerOk(e, run[|run| - 1], org) {
        forall k | 0 <= k < |run| ensures OneAtATime(run[k], org) { AloneIsOneAtATime(run[k], org); }
        RunKeeps(e, run, |run| - 1, org, true);
      }
    } else {
      var a := Input(org, [], [], [], Null);
      var run := OverlapForks(e, a, a, 0, 0, [], []);
      assert RunOfAtMost(e, n, run, org);
      if LedgerOk(e, run[|run| - 1], org) {
        ChainIsUnforked(e.crypto, org, Rows(run[|run| - 1].committed, org));
      }
    }
  }
}
