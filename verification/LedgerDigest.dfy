/** What the hash of a ledger row covers (src/lib/audit-ledger.ts:102-125).
    SHA-256 (section 6.2 of FIPS 180-4) and the ISO form of a timestamp are
    parameters. */
module LedgerDigest {
  import opened Options
  import opened CanonicalJson

  /** The fields of a row that its hash covers. */
  datatype Record = Record(
    organizationId: Text, actorId: Text, actionType: Text, targetResource: Text,
    metadata: Json, createdAt: int, previousHash: Option<Text>)

  datatype Crypto = Crypto(sha256: Text -> Text, iso: int -> Text)

  const ORGANIZATION_ID: Text := Ascii("organizationId")
  const ACTOR_ID: Text := Ascii("actorId")
  const ACTION_TYPE: Text := Ascii("actionType")
  const TARGET_RESOURCE: Text := Ascii("targetResource")
  const METADATA: Text := Ascii("metadata")
  const CREATED_AT: Text := Ascii("createdAt")
  const PREVIOUS_HASH: Text := Ascii("previousHash")

  function OptionalText(t: Option<Text>): Json {
    match t case None => Null case Some(s) => Str(s)
  }

  /** The object literal that is hashed, in source order. */
  function DigestObject(c: Crypto, r: Record): Json {
    Obj([Member(ORGANIZATION_ID, Str(r.organizationId)),
         Member(ACTOR_ID, Str(r.actorId)),
         Member(ACTION_TYPE, Str(r.actionType)),
         Member(TARGET_RESOURCE, Str(r.targetResource)),
         Member(METADATA, r.metadata),
         Member(CREATED_AT, Str(c.iso(r.createdAt))),
         Member(PREVIOUS_HASH, OptionalText(r.previousHash))])
  }

  function DigestInput(c: Crypto, r: Record): Text {
    CanonicalText(DigestObject(c, r))
  }

  function Hash(c: Crypto, r: Record): Text {
    c.sha256(DigestInput(c, r))
  }

  function Hasher(c: Crypto): Record -> Text {
    r => Hash(c, r)
  }

  /** The two records agree on all seven hashed fields; metadata up to key order. */
  ghost predicate Agrees(iso: int -> Text, r: Record, s: Record) {
    && r.organizationId == s.organizationId
    && r.actorId == s.actorId
    && r.actionType == s.actionType
    && r.targetResource == s.targetResource
    && MeaningOf(r.metadata, {PROTO}) == MeaningOf(s.metadata, {PROTO})
    && iso(r.createdAt) == iso(s.createdAt)
    && r.previousHash == s.previousHash
  }

  ghost predicate SameKeys(ms: seq<Member>, ns: seq<Member>, drop: set<Text>) {
    |ms| == |ns| && forall i :: 0 <= i < |ms| ==> ms[i].key == ns[i].key && ms[i].key !in drop
  }

  ghost predicate SameValues(ms: seq<Member>, ns: seq<Member>, drop: set<Text>)
    requires |ms| == |ns|
  {
    forall i :: 0 <= i < |ms| ==> MeaningOf(ms[i].value, drop) == MeaningOf(ns[i].value, drop)
  }

  lemma {:induction false} SameMeanings(ms: seq<Member>, ns: seq<Member>, drop: set<Text>)
    requires SameKeys(ms, ns, drop) && SameValues(ms, ns, drop)
    ensures MemberMeanings(ms, drop) == MemberMeanings(ns, drop)
  {
    if ms != [] {
      assert forall i :: 0 <= i < |ms| - 1 ==> ms[1..][i] == ms[i + 1] && ns[1..][i] == ns[i + 1];
      SameMeanings(ms[1..], ns[1..], drop);
    }
  }

  /** Two member lists with the same keys mean the same exactly when their values do. */
  lemma SameKeysMeaning(ms: seq<Member>, ns: seq<Member>, drop: set<Text>)
    requires SameKeys(ms, ns, drop) && DistinctKeys(ms) && DistinctKeys(ns)
    ensures MemberMeanings(ms, drop) == MemberMeanings(ns, drop) <==> SameValues(ms, ns, drop)
  {
    if SameValues(ms, ns, drop) {
      SameMeanings(ms, ns, drop);
    } else {
      var i :| 0 <= i < |ms| && MeaningOf(ms[i].value, drop) != MeaningOf(ns[i].value, drop);
      HasMeaning(ms, drop, i);
      HasMeaning(ns, drop, i);
    }
  }

  lemma DigestObjectShape(c: Crypto, r: Record)
    requires WellFormed(r.metadata)
    ensures WellFormed(DigestObject(c, r))
    ensures forall i :: 0 <= i < 7 ==> DigestObject(c, r).members[i].key != PROTO
  {
    var ms := DigestObject(c, r).members;
    assert ms[0].key[0] == 111 && ms[3].key[0] == 116;
    assert |ms[0].key| == 14 && |ms[1].key| == 7 && |ms[2].key| == 10 && |ms[3].key| == 14
        && |ms[4].key| == 8 && |ms[5].key| == 9 && |ms[6].key| == 12;
    assert ms[5].key[0] == 99 && PROTO[0] == 95;
  }

  lemma DigestValuesAgree(c: Crypto, r: Record, s: Record)
    ensures SameValues(DigestObject(c, r).members, DigestObject(c, s).members, {PROTO}) <==> Agrees(c.iso, r, s)
  {
    var ms, ns := DigestObject(c, r).members, DigestObject(c, s).members;
    if SameValues(ms, ns, {PROTO}) {
      assert MeaningOf(ms[0].value, {PROTO}) == MeaningOf(ns[0].value, {PROTO});
      assert MeaningOf(ms[1].value, {PROTO}) == MeaningOf(ns[1].value, {PROTO});
      assert MeaningOf(ms[2].value, {PROTO}) == MeaningOf(ns[2].value, {PROTO});
      assert MeaningOf(ms[3].value, {PROTO}) == MeaningOf(ns[3].value, {PROTO});
      assert MeaningOf(ms[4].value, {PROTO}) == MeaningOf(ns[4].value, {PROTO});
      assert MeaningOf(ms[5].value, {PROTO}) == MeaningOf(ns[5].value, {PROTO});
      assert MeaningOf(ms[6].value, {PROTO}) == MeaningOf(ns[6].value, {PROTO});
    }
  }

  lemma DigestKeysAlike(c: Crypto, r: Record, s: Record)
    requires WellFormed(r.metadata)
    ensures SameKeys(DigestObject(c, r).members, DigestObject(c, s).members, {PROTO})
  {
    DigestObjectShape(c, r);
  }

  /** Equal digest inputs exactly when all seven hashed fields agree. */
  lemma DigestInputExact(c: Crypto, r: Record, s: Record)
    requires WellFormed(r.metadata) && WellFormed(s.metadata)
    ensures DigestInput(c, r) == DigestInput(c, s) <==> Agrees(c.iso, r, s)
  {
    var ms, ns := DigestObject(c, r).members, DigestObject(c, s).members;
    DigestObjectShape(c, r);
    DigestObjectShape(c, s);
    CanonicalTextExact(Obj(ms), Obj(ns));
    DigestKeysAlike(c, r, s);
    SameKeysMeaning(ms, ns, {PROTO});
    DigestValuesAgree(c, r, s);
  }

  predicate Under(fields: map<Text, Meaning>, name: Text, m: Meaning) {
    name in fields && fields[name] == m
  }

  /** The members of a parsed digest input: each field of the record under its name. */
  ghost predicate Labelled(c: Crypto, r: Record, metadata: Meaning, fields: map<Text, Meaning>) {
    LabelledWho(r, fields) && LabelledWhat(c, r, metadata, fields) && |fields| == 7
  }

  ghost predicate LabelledWho(r: Record, fields: map<Text, Meaning>) {
    && Under(fields, ORGANIZATION_ID, StrMeaning(r.organizationId))
    && Under(fields, ACTOR_ID, StrMeaning(r.actorId))
    && Under(fields, ACTION_TYPE, StrMeaning(r.actionType))
    && Under(fields, TARGET_RESOURCE, StrMeaning(r.targetResource))
  }

  ghost predicate LabelledWhat(c: Crypto, r: Record, metadata: Meaning, fields: map<Text, Meaning>) {
    && Under(fields, METADATA, metadata)
    && Under(fields, CREATED_AT, StrMeaning(c.iso(r.createdAt)))
    && Under(fields, PREVIOUS_HASH, if r.previousHash.Some? then StrMeaning(r.previousHash.value) else NullMeaning)
  }

  lemma DistinctIsFunctional(ms: seq<Member>)
    requires DistinctKeys(ms)
    ensures Functional(ms)
  {
  }

  lemma FieldUnder(ms: seq<Member>, drop: set<Text>, i: nat, name: Text)
    requires Functional(ms) && i < |ms| && ms[i].key == name && name !in drop
    ensures Under(MemberMeanings(ms, drop), name, MeaningOf(ms[i].value, drop))
  {
    HasMeaning(ms, drop, i);
  }

  ghost predicate NothingDropped(c: Crypto, r: Record, drop: set<Text>) {
    var ms := DigestObject(c, r).members;
    DistinctKeys(ms) && Functional(ms) && forall i :: 0 <= i < 7 ==> ms[i].key !in drop
  }

  lemma WhoUnder(c: Crypto, r: Record, drop: set<Text>)
    requires NothingDropped(c, r, drop)
    ensures LabelledWho(r, MemberMeanings(DigestObject(c, r).members, drop))
  {
    var ms := DigestObject(c, r).members;
    FieldUnder(ms, drop, 0, ORGANIZATION_ID);
    FieldUnder(ms, drop, 1, ACTOR_ID);
    FieldUnder(ms, drop, 2, ACTION_TYPE);
    FieldUnder(ms, drop, 3, TARGET_RESOURCE);
  }

  lemma WhatUnder(c: Crypto, r: Record, drop: set<Text>)
    requires NothingDropped(c, r, drop)
    ensures LabelledWhat(c, r, MeaningOf(r.metadata, drop), MemberMeanings(DigestObject(c, r).members, drop))
  {
    var ms := DigestObject(c, r).members;
    FieldUnder(ms, drop, 4, METADATA);
    FieldUnder(ms, drop, 5, CREATED_AT);
    FieldUnder(ms, drop, 6, PREVIOUS_HASH);
  }

  lemma DigestLabelled(c: Crypto, r: Record, drop: set<Text>)
    requires NothingDropped(c, r, drop)
    ensures Labelled(c, r, MeaningOf(r.metadata, drop), MemberMeanings(DigestObject(c, r).members, drop))
  {
    WhoUnder(c, r, drop);
    WhatUnder(c, r, drop);
    MeaningsCount(DigestObject(c, r).members, drop);
  }

  lemma {:induction false} MeaningsCount(ms: seq<Member>, drop: set<Text>)
    requires DistinctKeys(ms) && forall i :: 0 <= i < |ms| ==> ms[i].key !in drop
    ensures |MemberMeanings(ms, drop)| == |ms|
  {
    if ms != [] {
      MeaningsCount(ms[1..], drop);
      MemberMeaningsKeys(ms[1..], drop);
      assert ms[0].key !in MemberMeanings(ms[1..], drop);
    }
  }

  lemma NothingLost(c: Crypto, r: Record)
    requires WellFormed(r.metadata)
    ensures WellFormed(DigestObject(c, r)) && NothingDropped(c, r, {PROTO})
  {
    DigestObjectShape(c, r);
    DistinctIsFunctional(DigestObject(c, r).members);
  }

  /** What is hashed is JSON text with exactly the seven fields under their names, and
      with its keys in order. */
  lemma DigestInputIs(c: Crypto, r: Record)
    requires WellFormed(r.metadata)
    ensures var w := Parse(DigestInput(c, r));
            && w.Some? && w.value.Obj? && KeysInOrder(w.value)
            && Labelled(c, r, MeaningOf(r.metadata, {PROTO}), MemberMeanings(w.value.members, {}))
  {
    NothingLost(c, r);
    CanonicalTextIs(DigestObject(c, r));
    DigestLabelled(c, r, {PROTO});
  }

  /** SHA-256 sends the digest inputs of the two records, which differ, to one hash. */
  predicate ShaCollides(c: Crypto, r: Record, s: Record) {
    DigestInput(c, r) != DigestInput(c, s) && c.sha256(DigestInput(c, r)) == c.sha256(DigestInput(c, s))
  }

  /** Records have the same hash exactly when they agree on the hashed fields, but
      for two texts on which SHA-256 collides. */
  lemma HashExact(c: Crypto, r: Record, s: Record)
    requires WellFormed(r.metadata) && WellFormed(s.metadata)
    ensures Hash(c, r) == Hash(c, s) <==> Agrees(c.iso, r, s) || ShaCollides(c, r, s)
    ensures !(Agrees(c.iso, r, s) && ShaCollides(c, r, s))
  {
    DigestInputExact(c, r, s);
  }
}
