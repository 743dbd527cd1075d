/** The chain of ledger rows (src/lib/audit-ledger.ts:252-309): the verifier loop
    and what a verifying chain rules out. The lemmas hold of any hash of records;
    none assumes that it is one-to-one, the conclusions name a collision instead. */
module LedgerChain {
  import opened Options
  import opened CanonicalJson
  import opened LedgerDigest

  datatype Row = Row(id: Text, record: Record, currentHash: Text)

  function HeadHash(rows: seq<Row>): Option<Text> {
    if rows == [] then None else Some(rows[|rows| - 1].currentHash)
  }

  /** Row `i` names the hash of the row before it, the first row names none. */
  predicate Linked(rows: seq<Row>, i: nat)
    requires i < |rows|
  {
    rows[i].record.previousHash == if i == 0 then None else Some(rows[i - 1].currentHash)
  }

  predicate RowOk(hash: Record -> Text, rows: seq<Row>, i: nat)
    requires i < |rows|
  {
    Linked(rows, i) && rows[i].currentHash == hash(rows[i].record)
  }

  /** Every row links to the row before it and carries the hash of its own fields. */
  ghost predicate Verifies(hash: Record -> Text, rows: seq<Row>) {
    forall i :: 0 <= i < |rows| ==> RowOk(hash, rows, i)
  }

  datatype Reason = ChainLinkMismatch | HashRecomputeMismatch

  datatype Break = Break(brokenAtSequence: nat, brokenRowId: Text, reason: Reason)

  datatype Integrity = Integrity(ok: bool, count: nat, headHash: Option<Text>, broken: Option<Break>)

  /** The walk over a ledger in verify order: it fails at exactly the first
      position whose prefix does not verify, and reports the head before it. */
  method VerifyLedgerIntegrity(hash: Record -> Text, rows: seq<Row>) returns (r: Integrity)
    ensures r.count == |rows| && (r.ok <==> r.broken.None?)
    ensures r.ok <==> Verifies(hash, rows)
    ensures r.ok ==> r.headHash == HeadHash(rows)
    ensures r.broken.Some? ==>
              var k := r.broken.value.brokenAtSequence;
              && 1 <= k <= |rows|
              && Verifies(hash, rows[..k - 1]) && !Verifies(hash, rows[..k])
              && r.headHash == HeadHash(rows[..k - 1])
              && r.broken.value.brokenRowId == rows[k - 1].id
              && (r.broken.value.reason.ChainLinkMismatch? <==> !Linked(rows, k - 1))
  {
    var expectedPrev: Option<Text> := None;
    var i := 0;
    while i < |rows|
      invariant 0 <= i <= |rows|
      invariant expectedPrev == HeadHash(rows[..i])
      invariant Verifies(hash, rows[..i])
    {
      PrefixVerifies(hash, rows[..i + 1], i);
      PrefixVerifies(hash, rows, i + 1);
      assert rows[..i + 1][..i] == rows[..i];
      assert RowOk(hash, rows[..i + 1], i) <==> RowOk(hash, rows, i);
      if rows[i].record.previousHash != expectedPrev {
        return Integrity(false, |rows|, expectedPrev, Some(Break(i + 1, rows[i].id, ChainLinkMismatch)));
      }
      if hash(rows[i].record) != rows[i].currentHash {
        return Integrity(false, |rows|, expectedPrev, Some(Break(i + 1, rows[i].id, HashRecomputeMismatch)));
      }
      expectedPrev := Some(rows[i].currentHash);
      i := i + 1;
    }
    assert rows[..i] == rows;
    return Integrity(true, |rows|, expectedPrev, None);
  }

  /** A prefix verifies on its own, so rows cut off at the end are not a break. */
  lemma PrefixVerifies(hash: Record -> Text, rows: seq<Row>, k: nat)
    requires k <= |rows|
    ensures Verifies(hash, rows) ==> Verifies(hash, rows[..k])
    ensures Verifies(hash, rows[..k]) && k + 1 == |rows| ==> (Verifies(hash, rows) <==> RowOk(hash, rows, k))
  {
    forall i | 0 <= i < k ensures RowOk(hash, rows[..k], i) <==> RowOk(hash, rows, i) {
    }
    if Verifies(hash, rows[..k]) && k + 1 == |rows| && RowOk(hash, rows, k) {
      forall i | 0 <= i < |rows| ensures RowOk(hash, rows, i) {
        if i < k { assert RowOk(hash, rows[..k], i); }
      }
    }
  }

  /** A list with one row more verifies exactly when the list does and the row names
      its head and carries its own hash. */
  lemma AppendVerifies(hash: Record -> Text, rows: seq<Row>, row: Row)
    ensures Verifies(hash, rows + [row]) <==>
            Verifies(hash, rows) && row.record.previousHash == HeadHash(rows) && row.currentHash == hash(row.record)
  {
    var longer, n := rows + [row], |rows|;
    assert longer[..n] == rows && longer[n] == row;
    PrefixVerifies(hash, longer, n);
    assert RowOk(hash, longer, n) <==> row.record.previousHash == HeadHash(rows) && row.currentHash == hash(row.record);
  }

  // ------------------------------------------------- what verification rules out

  /** The two chains agree row by row on every hashed field and hash. */
  ghost predicate SameHistory(iso: int -> Text, a: seq<Row>, b: seq<Row>) {
    |a| == |b| &&
    forall i :: 0 <= i < |a| ==> a[i].currentHash == b[i].currentHash && Agrees(iso, a[i].record, b[i].record)
  }

  /** A row of each chain have one hash although they disagree on a hashed field. */
  ghost predicate Collision(hash: Record -> Text, iso: int -> Text, a: seq<Row>, b: seq<Row>) {
    exists i, j :: 0 <= i < |a| && 0 <= j < |b| && Collides(hash, iso, a[i].record, b[j].record)
  }

  ghost predicate Collides(hash: Record -> Text, iso: int -> Text, r: Record, s: Record) {
    hash(r) == hash(s) && !Agrees(iso, r, s)
  }

  /** One head fingerprint determines the whole history, short of a hash collision. */
  lemma {:induction false} HeadFixesHistory(hash: Record -> Text, iso: int -> Text, a: seq<Row>, b: seq<Row>)
    requires Verifies(hash, a) && Verifies(hash, b)
    requires HeadHash(a) == HeadHash(b)
    ensures SameHistory(iso, a, b) || Collision(hash, iso, a, b)
    decreases |a|
  {
    if a != [] {
      var n, m := |a| - 1, |b| - 1;
      assert RowOk(hash, a, n) && RowOk(hash, b, m);
      if Agrees(iso, a[n].record, b[m].record) {
        PrefixVerifies(hash, a, n);
        PrefixVerifies(hash, b, m);
        HeadFixesHistory(hash, iso, a[..n], b[..m]);
        if Collision(hash, iso, a[..n], b[..m]) {
        } else {
        }
      } else {
        assert Collides(hash, iso, a[n].record, b[m].record);
      }
    }
  }

  /** In a verifying chain without a collision no hash occurs twice, so no two
      rows share a predecessor either. */
  lemma {:induction false} HashesDistinct(hash: Record -> Text, iso: int -> Text, a: seq<Row>, i: nat, j: nat)
    requires Verifies(hash, a) && !Collision(hash, iso, a, a) && i < j < |a|
    ensures a[i].currentHash != a[j].currentHash
    ensures a[i].record.previousHash != a[j].record.previousHash
    decreases i
  {
    assert RowOk(hash, a, i) && RowOk(hash, a, j);
    if i > 0 {
      HashesDistinct(hash, iso, a, i - 1, j - 1);
    }
    assert !Collides(hash, iso, a[i].record, a[j].record);
  }

  lemma HeadHasNoSuccessor(hash: Record -> Text, iso: int -> Text, a: seq<Row>, k: nat)
    requires Verifies(hash, a) && !Collision(hash, iso, a, a) && k < |a|
    ensures a[k].record.previousHash != HeadHash(a)
  {
    assert RowOk(hash, a, k);
    if k > 0 { HashesDistinct(hash, iso, a, k - 1, |a| - 1); }
  }

  /** A row is placed by its predecessor. */
  lemma PositionFromPredecessor(hash: Record -> Text, iso: int -> Text, a: seq<Row>, j: nat, n: nat)
    requires Verifies(hash, a) && !Collision(hash, iso, a, a)
    requires j < |a| && n <= |a| && a[j].record.previousHash == HeadHash(a[..n])
    ensures j == n
  {
    assert RowOk(hash, a, j);
    if 0 < j < n {
      HashesDistinct(hash, iso, a, j - 1, n - 1);
    } else if 0 < n < j {
      HashesDistinct(hash, iso, a, n - 1, j - 1);
    }
  }

  /** Any verifying list made of a chain's own rows, in whatever order and with
      whatever left out, is a prefix of the chain: reordering, repeating or
      removing rows is detected unless it only cuts off the end. */
  lemma {:induction false} SelectionIsPrefix(hash: Record -> Text, iso: int -> Text, a: seq<Row>, b: seq<Row>)
    requires Verifies(hash, a) && !Collision(hash, iso, a, a)
    requires Verifies(hash, b) && forall k :: 0 <= k < |b| ==> b[k] in a
    ensures b <= a
    decreases |b|
  {
    if b != [] {
      var n := |b| - 1;
      PrefixVerifies(hash, b, n);
      assert forall k :: 0 <= k < n ==> b[..n][k] == b[k];
      SelectionIsPrefix(hash, iso, a, b[..n]);
      assert b[n] in a && RowOk(hash, b, n);
      NextOfPrefix(hash, iso, a, b);
    }
  }

  lemma NextOfPrefix(hash: Record -> Text, iso: int -> Text, a: seq<Row>, b: seq<Row>)
    requires Verifies(hash, a) && !Collision(hash, iso, a, a)
    requires b != [] && b[..|b| - 1] <= a && b[|b| - 1] in a && Linked(b, |b| - 1)
    ensures b <= a
  {
    var n := |b| - 1;
    var j :| 0 <= j < |a| && a[j] == b[n];
    assert a[..n] == b[..n];
    PositionFromPredecessor(hash, iso, a, j, n);
    assert b == b[..n] + [a[n]];
  }

  /** Deleting one row is detected exactly when it is not the newest one. */
  lemma DeletionDetected(hash: Record -> Text, iso: int -> Text, a: seq<Row>, i: nat)
    requires Verifies(hash, a) && !Collision(hash, iso, a, a) && i < |a|
    ensures Verifies(hash, a[..i] + a[i + 1..]) <==> i == |a| - 1
  {
    var b := a[..i] + a[i + 1..];
    if i == |a| - 1 {
      assert b == a[..i];
      PrefixVerifies(hash, a, i);
    } else if Verifies(hash, b) {
      forall k | 0 <= k < |b| ensures b[k] in a {
        assert b[k] == if k < i then a[k] else a[k + 1];
      }
      SelectionIsPrefix(hash, iso, a, b);
      assert b[i] == a[i + 1] && b[i] == a[i];
      HashesDistinct(hash, iso, a, i, i + 1);
    }
  }

  // ------------------------------------------------------ with the ledger's hash

  ghost predicate WellFormedRows(rows: seq<Row>) {
    forall i :: 0 <= i < |rows| ==> WellFormed(rows[i].record.metadata)
  }

  /** SHA-256 sends the digest inputs of two of these rows, which differ, to one hash. */
  ghost predicate ShaCollision(c: Crypto, a: seq<Row>, b: seq<Row>) {
    exists i, j :: 0 <= i < |a| && 0 <= j < |b| && ShaCollides(c, a[i].record, b[j].record)
  }

  /** Two ledgers that verify and report the same head hash are the same history,
      or they exhibit a collision of SHA-256. */
  lemma LedgerHeadFixesHistory(c: Crypto, a: seq<Row>, b: seq<Row>)
    requires Verifies(Hasher(c), a) && Verifies(Hasher(c), b) && HeadHash(a) == HeadHash(b)
    requires WellFormedRows(a) && WellFormedRows(b)
    ensures SameHistory(c.iso, a, b) || ShaCollision(c, a, b)
  {
    HeadFixesHistory(Hasher(c), c.iso, a, b);
    if Collision(Hasher(c), c.iso, a, b) {
      var i, j :| 0 <= i < |a| && 0 <= j < |b| && Collides(Hasher(c), c.iso, a[i].record, b[j].record);
      HashExact(c, a[i].record, b[j].record);
    }
  }

  /** A store that gives metadata back with its keys in another order leaves the
      verdict on a ledger as it was. */
  lemma LedgerVerdictIgnoresKeyOrder(c: Crypto, a: seq<Row>, b: seq<Row>)
    requires SameHistory(c.iso, a, b) && WellFormedRows(a) && WellFormedRows(b)
    ensures Verifies(Hasher(c), a) <==> Verifies(Hasher(c), b)
  {
    forall i | 0 <= i < |a|
      ensures RowOk(Hasher(c), a, i) <==> RowOk(Hasher(c), b, i)
    {
      HashExact(c, a[i].record, b[i].record);
    }
  }

  /** Replacing one row is detected exactly when it changes a hashed field or the
      hash, save that the newest row can be replaced by another valid successor. */
  lemma LedgerEditDetected(c: Crypto, a: seq<Row>, i: nat, row: Row)
    requires Verifies(Hasher(c), a) && WellFormedRows(a) && i < |a| && WellFormed(row.record.metadata)
    requires !ShaCollides(c, row.record, a[i].record)
    ensures Verifies(Hasher(c), a[i := row]) <==>
              || (row.currentHash == a[i].currentHash && Agrees(c.iso, row.record, a[i].record))
              || (i == |a| - 1 && row.record.previousHash == a[i].record.previousHash
                  && row.currentHash == Hash(c, row.record))
  {
    assert RowOk(Hasher(c), a, i);
    HashExact(c, row.record, a[i].record);
    EditVerifies(Hasher(c), a, i, row);
  }

  lemma EditVerifies(hash: Record -> Text, a: seq<Row>, i: nat, row: Row)
    requires Verifies(hash, a) && i < |a|
    ensures Verifies(hash, a[i := row]) <==>
              && row.record.previousHash == a[i].record.previousHash
              && row.currentHash == hash(row.record)
              && (i < |a| - 1 ==> row.currentHash == a[i].currentHash)
  {
    var b := a[i := row];
    assert RowOk(hash, a, i);
    if i < |a| - 1 { assert RowOk(hash, a, i + 1); }
    if Verifies(hash, b) {
      assert RowOk(hash, b, i);
      if i < |a| - 1 { assert RowOk(hash, b, i + 1); }
    } else {
      var k :| 0 <= k < |b| && !RowOk(hash, b, k);
      assert RowOk(hash, a, k);
    }
  }
}
