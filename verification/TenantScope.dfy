/** Tenant scoping of queries (src/lib/db.ts:79-185 and src/lib/db/org-scope.ts):
    every operation on a tenant-owned model is rewritten to carry the request's
    organization, and then runs on a store that holds the rows of all tenants. */
module TenantScope {
  import opened Options

  datatype Val = Text(s: string) | Number(n: int) | Flag(b: bool) | Nil

  type Row = map<string, Val>

  const ORG := "organizationId"

  function Get(row: Row, name: string): Val {
    if name in row then row[name] else Nil
  }

  predicate InOrg(row: Row, org: string) {
    Get(row, ORG) == Text(org)
  }

  // ------------------------------------------------------------------ filters

  /** A condition on a column: equality, any other scalar test, or the components
      of a compound unique key. */
  datatype Cond = Is(v: Val) | Test(p: Val -> bool) | Compound(parts: seq<(string, Val)>)

  /** A `where` object: its column conditions in order, and AND / OR / NOT. */
  datatype Where = Where(fields: seq<(string, Cond)>, ands: Clause, ors: Clause, nots: Clause)

  datatype Clause = Absent | Present(list: seq<Where>)

  predicate CondHolds(name: string, c: Cond, row: Row) {
    match c
    case Is(v) => Get(row, name) == v
    case Test(p) => p(Get(row, name))
    case Compound(parts) => forall i :: 0 <= i < |parts| ==> Get(row, parts[i].0) == parts[i].1
  }

  predicate Matches(w: Where, row: Row) {
    && (forall i :: 0 <= i < |w.fields| ==> CondHolds(w.fields[i].0, w.fields[i].1, row))
    && (w.ands.Present? ==> forall i :: 0 <= i < |w.ands.list| ==> Matches(w.ands.list[i], row))
    && (w.ors.Present? ==> exists i :: 0 <= i < |w.ors.list| && Matches(w.ors.list[i], row))
    && (w.nots.Present? ==> forall i :: 0 <= i < |w.nots.list| ==> !Matches(w.nots.list[i], row))
  }

  function OrgFragment(org: string): Where {
    Where([(ORG, Is(Text(org)))], Absent, Absent, Absent)
  }

  predicate HasKeys(w: Where) {
    |w.fields| > 0 || w.ands.Present? || w.ors.Present? || w.nots.Present?
  }

  function MergeOrgWhere(w: Option<Where>, org: string): (r: Where)
    ensures forall row :: Matches(r, row) <==> InOrg(row, org) && (w.Some? ==> Matches(w.value, row))
  {
    var fragment := OrgFragment(org);
    assert forall row :: Matches(fragment, row) <==> InOrg(row, org) by {
      assert fragment.fields[0] == (ORG, Is(Text(org)));
    }
    if w.Some? && HasKeys(w.value) then
      var r := Where([], Present([w.value, fragment]), Absent, Absent);
      assert forall row :: Matches(r, row) <==> (Matches(r.ands.list[0], row) && Matches(r.ands.list[1], row));
      r
    else fragment
  }

  /** Assignment to a property: in place when it exists, else at the end. */
  function SetField(fields: seq<(string, Cond)>, name: string, c: Cond): seq<(string, Cond)> {
    if fields == [] then [(name, c)]
    else if fields[0].0 == name then [(name, c)] + fields[1..]
    else [fields[0]] + SetField(fields[1..], name, c)
  }

  lemma {:induction false} SetFieldAt(fields: seq<(string, Cond)>, name: string, c: Cond) returns (i: nat)
    ensures i < |SetField(fields, name, c)| && SetField(fields, name, c)[i] == (name, c)
  {
    if fields == [] || fields[0].0 == name {
      i := 0;
    } else {
      var j := SetFieldAt(fields[1..], name, c);
      i := j + 1;
    }
  }

  /** The unique selector stays at the top level, the organization is set beside it. */
  function MergeOrgWhereUnique(w: Where, org: string): Where {
    w.(fields := SetField(w.fields, ORG, Is(Text(org))))
  }

  function AssignParts(fields: seq<(string, Cond)>, parts: seq<(string, Val)>): seq<(string, Cond)>
    decreases |parts|
  {
    if parts == [] then fields else AssignParts(SetField(fields, parts[0].0, Is(parts[0].1)), parts[1..])
  }

  function FlattenFields(out: seq<(string, Cond)>, fields: seq<(string, Cond)>): seq<(string, Cond)>
    decreases |fields|
  {
    if fields == [] then out
    else
      FlattenFields(Spread(out, fields[0].0, fields[0].1), fields[1..])
  }

  function Spread(out: seq<(string, Cond)>, name: string, c: Cond): seq<(string, Cond)> {
    if c.Compound? then AssignParts(out, c.parts) else SetField(out, name, c)
  }

  /** A compound key becomes conditions on its components. */
  function FlattenUniqueWhere(w: Where): Where {
    w.(fields := FlattenFields([], w.fields))
  }

  // -------------------------------------------------------------------- data

  /** A column is given a value, or the update form `{ set: value }`. */
  datatype Assign = To(v: Val) | SetTo(v: Val)

  /** What a create or update writes; `connect` is the relation form of the organization. */
  datatype Data = Data(columns: map<string, Assign>, connect: Option<string>)

  /** The data names an organization other than `org`, in whatever form. */
  predicate HomesElsewhere(d: Data, org: string) {
    || (ORG in d.columns && d.columns[ORG].v != Text(org))
    || (d.connect.Some? && d.connect.value != org)
  }

  /** Rejects a string that names another organization; injects this one when absent. */
  function ApplyOrg(d: Data, org: string, inject: bool): Option<Data> {
    if ORG in d.columns && d.columns[ORG].To? && d.columns[ORG].v.Text? && d.columns[ORG].v.s != org then None
    else if inject && ORG !in d.columns && d.connect.None? then
      Some(d.(columns := d.columns[ORG := To(Text(org))]))
    else Some(d)
  }

  /** The data names another organization, as a plain string. */
  predicate NamesAnother(d: Data, org: string) {
    ORG in d.columns && d.columns[ORG].To? && d.columns[ORG].v.Text? && d.columns[ORG].v != Text(org)
  }

  /** The data as given, with the organization's column when it says nothing of one. */
  function Stamped(d: Data, org: string): Data {
    if ORG in d.columns || d.connect.Some? then d else Data(d.columns + map[ORG := To(Text(org))], None)
  }

  /** Data is refused if and only if it names another organization; otherwise it is kept
      as it is, every column of it, and only a create that says nothing of an
      organization gets this one. */
  lemma AppliedExactly(d: Data, org: string, inject: bool)
    ensures ApplyOrg(d, org, inject).None? <==> NamesAnother(d, org)
    ensures !NamesAnother(d, org) ==> ApplyOrg(d, org, inject) == Some(if inject then Stamped(d, org) else d)
    ensures Stamped(d, org).connect == d.connect
    ensures forall c :: c in d.columns ==> c in Stamped(d, org).columns && Stamped(d, org).columns[c] == d.columns[c]
    ensures forall c :: c in Stamped(d, org).columns && c !in d.columns ==> c == ORG
  {
    if inject && ORG !in d.columns && d.connect.None? {
      assert d.columns + map[ORG := To(Text(org))] == d.columns[ORG := To(Text(org))];
    }
  }

  function ApplyOrgAll(ds: seq<Data>, org: string): Option<seq<Data>> {
    if ds == [] then Some([])
    else
      match (ApplyOrg(ds[0], org, true), ApplyOrgAll(ds[1..], org))
      case (Some(d), Some(rest)) => Some([d] + rest)
      case _ => None
  }

  predicate AnyNamesAnother(ds: seq<Data>, org: string) {
    exists i :: 0 <= i < |ds| && NamesAnother(ds[i], org)
  }

  lemma {:induction false} AppliedRows(ds: seq<Data>, org: string)
    ensures ApplyOrgAll(ds, org).None? <==> AnyNamesAnother(ds, org)
    ensures !AnyNamesAnother(ds, org) ==> ApplyOrgAll(ds, org) == Some(StampedAll(ds, org))
  {
    if ds != [] {
      AppliedExactly(ds[0], org, true);
      AppliedRows(ds[1..], org);
      AnyNamesCons(ds, org);
    }
  }

  lemma AnyNamesCons(ds: seq<Data>, org: string)
    requires ds != []
    ensures AnyNamesAnother(ds, org) <==> NamesAnother(ds[0], org) || AnyNamesAnother(ds[1..], org)
  {
    forall i | 0 < i < |ds| ensures ds[i] == ds[1..][i - 1] {
    }
  }

  function StampedAll(ds: seq<Data>, org: string): seq<Data> {
    if ds == [] then [] else [Stamped(ds[0], org)] + StampedAll(ds[1..], org)
  }

  // --------------------------------------------------------------- operations

  datatype Op =
    | Create(data: Data)
    | CreateMany(rows: seq<Data>)
    | CreateManyAndReturn(rows: seq<Data>)
    | Upsert(target: Where, create: Data, update: Data)
    | Update(target: Where, data: Data)
    | Delete(target: Where)
    | FindUnique(target: Where)
    | FindUniqueOrThrow(target: Where)
    | FindFirst(filter: Option<Where>)
    | FindFirstOrThrow(filter: Option<Where>)
    | FindMany(filter: Option<Where>)
    | Count(filter: Option<Where>)
    | Aggregate(filter: Option<Where>)
    | GroupBy(filter: Option<Where>)
    | UpdateMany(filter: Option<Where>, data: Data)
    | DeleteMany(filter: Option<Where>)

  /** The operation that reaches the database under the scope, or nothing when the
      scoping throws. */
  function Rewrite(op: Op, org: string): Option<Op> {
    match op
    case Create(d) =>
      (match ApplyOrg(d, org, true) case Some(d') => Some(Create(d')) case None => None)
    case CreateMany(ds) =>
      (match ApplyOrgAll(ds, org) case Some(ds') => Some(CreateMany(ds')) case None => None)
    case CreateManyAndReturn(ds) =>
      (match ApplyOrgAll(ds, org) case Some(ds') => Some(CreateManyAndReturn(ds')) case None => None)
    case Upsert(w, c, u) =>
      (match (ApplyOrg(c, org, true), ApplyOrg(u, org, false))
       case (Some(c'), Some(u')) => Some(Upsert(MergeOrgWhereUnique(w, org), c', u'))
       case _ => None)
    case Update(w, d) =>
      (match ApplyOrg(d, org, false) case Some(d') => Some(Update(MergeOrgWhereUnique(w, org), d')) case None => None)
    case Delete(w) => Some(Delete(MergeOrgWhereUnique(w, org)))
    case FindUnique(w) => Some(FindFirst(Some(MergeOrgWhere(Some(FlattenUniqueWhere(w)), org))))
    case FindUniqueOrThrow(w) => Some(FindFirstOrThrow(Some(MergeOrgWhere(Some(FlattenUniqueWhere(w)), org))))
    case FindFirst(w) => Some(FindFirst(Some(MergeOrgWhere(w, org))))
    case FindFirstOrThrow(w) => Some(FindFirstOrThrow(Some(MergeOrgWhere(w, org))))
    case FindMany(w) => Some(FindMany(Some(MergeOrgWhere(w, org))))
    case Count(w) => Some(Count(Some(MergeOrgWhere(w, org))))
    case Aggregate(w) => Some(Aggregate(Some(MergeOrgWhere(w, org))))
    case GroupBy(w) => Some(GroupBy(Some(MergeOrgWhere(w, org))))
    case UpdateMany(w, d) => Some(UpdateMany(Some(MergeOrgWhere(w, org)), d))
    case DeleteMany(w) => Some(DeleteMany(Some(MergeOrgWhere(w, org))))
  }

  datatype Scope = OrgScope(organizationId: string) | AdminScope

  /** What runs: the operation as it is for a model that no tenant owns and for an
      admin scope, the rewritten one for a tenant, nothing without a scope. */
  function Dispatch(tenantModel: bool, scope: Option<Scope>, op: Op): Option<Op> {
    if !tenantModel then Some(op)
    else match scope
      case None => None
      case Some(AdminScope) => Some(op)
      case Some(OrgScope(org)) => Rewrite(op, org)
  }

  /** The data of a create, one row or many: a loop that stops at the first row that
      names another organization. */
  method ApplyOrgToCreateData(ds: seq<Data>, org: string) returns (r: Option<seq<Data>>)
    ensures r == ApplyOrgAll(ds, org)
    ensures r.None? <==> AnyNamesAnother(ds, org)
    ensures r.Some? ==> r.value == StampedAll(ds, org)
  {
    AppliedRows(ds, org);
    var done: seq<Data> := [];
    assert ds[0..] == ds && Prepend(done, ApplyOrgAll(ds, org)) == ApplyOrgAll(ds, org) by {
      PrependNone(ApplyOrgAll(ds, org));
    }
    for i := 0 to |ds|
      invariant ApplyOrgAll(ds, org) == Prepend(done, ApplyOrgAll(ds[i..], org))
    {
      assert ds[i..][0] == ds[i] && ds[i..][1..] == ds[i + 1..];
      var d := ApplyOrg(ds[i], org, true);
      if d.None? { return None; }
      PrependOne(done, d.value, ApplyOrgAll(ds[i + 1..], org));
      done := done + [d.value];
    }
    assert ds[|ds|..] == [] && done + [] == done;
    r := Some(done);
  }

  function Prepend(done: seq<Data>, rest: Option<seq<Data>>): Option<seq<Data>> {
    if rest.None? then None else Some(done + rest.value)
  }

  lemma PrependNone(rest: Option<seq<Data>>)
    ensures Prepend([], rest) == rest
  {
    if rest.Some? { assert [] + rest.value == rest.value; }
  }

  lemma PrependOne(done: seq<Data>, d: Data, rest: Option<seq<Data>>)
    ensures Prepend(done + [d], rest) == Prepend(done, Prepend([d], rest))
  {
    if rest.Some? { assert done + [d] + rest.value == done + ([d] + rest.value); }
  }

  /** The extension itself: it picks the branch by the name of the operation and
      rewrites a copy of the arguments piece by piece. */
  method AllOperations(tenantModel: bool, scope: Option<Scope>, op: Op) returns (r: Option<Op>)
    ensures r == Dispatch(tenantModel, scope, op)
    ensures LetThrough(tenantModel, scope, op, r)
  {
    DispatchExactly(tenantModel, scope, op);
    if !tenantModel { return Some(op); }
    if scope.None? { return None; }
    if scope.value.AdminScope? { return Some(op); }
    var org := scope.value.organizationId;
    if op.Create? {
      var data := ApplyOrgToCreateData([op.data], org);
      return if data.None? then None else Some(Create(data.value[0]));
    }
    if op.CreateMany? || op.CreateManyAndReturn? {
      var data := ApplyOrgToCreateData(op.rows, org);
      if data.None? { return None; }
      return Some(if op.CreateMany? then CreateMany(data.value) else CreateManyAndReturn(data.value));
    }
    if op.Upsert? {
      var target, create, update := op.target, op.create, op.update;
      target := MergeOrgWhereUnique(target, org);
      var created := ApplyOrg(create, org, true);
      if created.None? { return None; }
      create := created.value;
      var updated := ApplyOrg(update, org, false);
      if updated.None? { return None; }
      update := updated.value;
      return Some(Upsert(target, create, update));
    }
    if op.Update? || op.Delete? {
      var target := MergeOrgWhereUnique(op.target, org);
      if op.Delete? { return Some(Delete(target)); }
      var data := ApplyOrg(op.data, org, false);
      return if data.None? then None else Some(Update(target, data.value));
    }
    if op.FindUnique? || op.FindUniqueOrThrow? {
      var filter := Some(MergeOrgWhere(Some(FlattenUniqueWhere(op.target)), org));
      return Some(if op.FindUnique? then FindFirst(filter) else FindFirstOrThrow(filter));
    }
    var filter := Some(MergeOrgWhere(op.filter, org));
    r := Some(
      match op
      case FindFirst(_) => FindFirst(filter)
      case FindFirstOrThrow(_) => FindFirstOrThrow(filter)
      case FindMany(_) => FindMany(filter)
      case Count(_) => Count(filter)
      case Aggregate(_) => Aggregate(filter)
      case GroupBy(_) => GroupBy(filter)
      case UpdateMany(_, data) => UpdateMany(filter, data)
      case DeleteMany(_) => DeleteMany(filter));
  }

  // ------------------------------------------------------------- the database

  /** What the caller gets back. `Found` also stands for what an aggregate, a
      grouping, an order or a page is computed from. */
  datatype Outcome = Found(rows: seq<Row>) | Counted(n: nat) | NotFound | UniqueViolation | Invalid | ScopeError

  function Filter(s: seq<Row>, w: Where): seq<Row> {
    if s == [] then []
    else if Matches(w, s[0]) then [s[0]] + Filter(s[1..], w)
    else Filter(s[1..], w)
  }

  function Without(s: seq<Row>, w: Where): seq<Row> {
    if s == [] then []
    else if Matches(w, s[0]) then Without(s[1..], w)
    else [s[0]] + Without(s[1..], w)
  }

  function DropFirst(s: seq<Row>, w: Where): seq<Row> {
    if s == [] then []
    else if Matches(w, s[0]) then s[1..]
    else [s[0]] + DropFirst(s[1..], w)
  }

  function Written(row: Row, d: Data): Row {
    var r := row + map c | c in d.columns :: d.columns[c].v;
    if d.connect.Some? then r[ORG := Text(d.connect.value)] else r
  }

  function WriteAll(s: seq<Row>, w: Where, d: Data): seq<Row> {
    if s == [] then []
    else [if Matches(w, s[0]) then Written(s[0], d) else s[0]] + WriteAll(s[1..], w, d)
  }

  function WriteFirst(s: seq<Row>, w: Where, d: Data): seq<Row> {
    if s == [] then []
    else if Matches(w, s[0]) then [Written(s[0], d)] + s[1..]
    else [s[0]] + WriteFirst(s[1..], w, d)
  }

  /** A create needs its organization in one form, and as a plain value. */
  predicate ValidCreate(d: Data) {
    if d.connect.Some? then ORG !in d.columns else ORG in d.columns && d.columns[ORG].To? && d.columns[ORG].v.Text?
  }

  /** An update may not set the column and the relation at once, nor set it to null. */
  predicate ValidUpdate(d: Data) {
    ORG in d.columns ==> d.connect.None? && d.columns[ORG].v.Text?
  }

  function Built(ds: seq<Data>): seq<Row> {
    if ds == [] then [] else [Written(map[], ds[0])] + Built(ds[1..])
  }

  /** The unique constraints of the model, each a set of columns. */
  type Keys = seq<set<string>>

  predicate Conflict(keys: Keys, a: Row, b: Row) {
    exists k :: 0 <= k < |keys| && forall c :: c in keys[k] ==> Get(a, c) == Get(b, c) != Nil
  }

  predicate UniqueAmong(keys: Keys, row: Row, s: seq<Row>) {
    forall i :: 0 <= i < |s| ==> !Conflict(keys, row, s[i])
  }

  predicate UniqueOk(keys: Keys, s: seq<Row>) {
    s == [] || (UniqueAmong(keys, s[0], s[1..]) && UniqueOk(keys, s[1..]))
  }

  const EVERYTHING := Where([], Absent, Absent, Absent)

  function Given(w: Option<Where>): Where {
    if w.Some? then w.value else EVERYTHING
  }

  function First(s: seq<Row>): seq<Row> {
    if s == [] then [] else [s[0]]
  }

  predicate AllValid(ds: seq<Data>) {
    forall i :: 0 <= i < |ds| ==> ValidCreate(ds[i])
  }

  /** Writing many rows takes plain columns only, no relation. */
  predicate AllScalar(ds: seq<Data>) {
    forall i :: 0 <= i < |ds| ==> ds[i].connect.None?
  }

  predicate ValidMany(ds: seq<Data>) {
    AllValid(ds) && AllScalar(ds)
  }

  predicate ValidUpdateMany(d: Data) {
    ValidUpdate(d) && d.connect.None?
  }

  /** What an operation does before the unique constraints are checked. */
  function Attempt(op: Op, s: seq<Row>): (seq<Row>, Outcome) {
    match op
    case Create(d) => if ValidCreate(d) then (s + Built([d]), Found(Built([d]))) else (s, Invalid)
    case CreateMany(ds) => if ValidMany(ds) then (s + Built(ds), Counted(|ds|)) else (s, Invalid)
    case CreateManyAndReturn(ds) => if ValidMany(ds) then (s + Built(ds), Found(Built(ds))) else (s, Invalid)
    case Upsert(w, c, u) =>
      if !ValidCreate(c) || !ValidUpdate(u) then (s, Invalid)
      else if Filter(s, w) == [] then (s + Built([c]), Found(Built([c])))
      else (WriteFirst(s, w, u), Found([Written(Filter(s, w)[0], u)]))
    case Update(w, d) =>
      if !ValidUpdate(d) then (s, Invalid)
      else if Filter(s, w) == [] then (s, NotFound)
      else (WriteFirst(s, w, d), Found([Written(Filter(s, w)[0], d)]))
    case Delete(w) => if Filter(s, w) == [] then (s, NotFound) else (DropFirst(s, w), Found(First(Filter(s, w))))
    case FindUnique(w) => (s, Found(First(Filter(s, w))))
    case FindUniqueOrThrow(w) => (s, if Filter(s, w) == [] then NotFound else Found(First(Filter(s, w))))
    case FindFirst(w) => (s, Found(First(Filter(s, Given(w)))))
    case FindFirstOrThrow(w) => (s, if Filter(s, Given(w)) == [] then NotFound else Found(First(Filter(s, Given(w)))))
    case FindMany(w) => (s, Found(Filter(s, Given(w))))
    case Count(w) => (s, Counted(|Filter(s, Given(w))|))
    case Aggregate(w) => (s, Found(Filter(s, Given(w))))
    case GroupBy(w) => (s, Found(Filter(s, Given(w))))
    case UpdateMany(w, d) =>
      if !ValidUpdateMany(d) then (s, Invalid) else (WriteAll(s, Given(w), d), Counted(|Filter(s, Given(w))|))
    case DeleteMany(w) => (Without(s, Given(w)), Counted(|Filter(s, Given(w))|))
  }

  /** Creates and updates take effect only if every unique constraint still holds. */
  predicate Writes(op: Op) {
    op.Create? || op.CreateMany? || op.CreateManyAndReturn? || op.Upsert? || op.Update? || op.UpdateMany?
  }

  predicate Succeeded(o: Outcome) {
    o.Found? || o.Counted?
  }

  function Exec(keys: Keys, op: Op, s: seq<Row>): (seq<Row>, Outcome) {
    var (after, o) := Attempt(op, s);
    if Writes(op) && Succeeded(o) && !UniqueOk(keys, after) then (s, UniqueViolation) else (after, o)
  }

  /** The operation that the extension lets through for a tenant's model, in the scope
      of `org`. */
  function Sent(op: Op, org: string): Option<Op> {
    Dispatch(true, Some(OrgScope(org)), op)
  }

  /** One operation of a request scoped to `org`. */
  function Scoped(keys: Keys, op: Op, org: string, s: seq<Row>): (seq<Row>, Outcome) {
    match Sent(op, org)
    case None => (s, ScopeError)
    case Some(rewritten) => Exec(keys, rewritten, s)
  }

  // -------------------------------------------------------------- projections

  /** The rows of the organization, or of all the others, in order. */
  function Part(s: seq<Row>, org: string, own: bool): seq<Row> {
    if s == [] then []
    else if InOrg(s[0], org) == own then [s[0]] + Part(s[1..], org, own)
    else Part(s[1..], org, own)
  }

  function Own(s: seq<Row>, org: string): seq<Row> { Part(s, org, true) }

  function Foreign(s: seq<Row>, org: string): seq<Row> { Part(s, org, false) }

  /** The filter reaches no other organization's rows. */
  ghost predicate Confined(w: Where, org: string) {
    forall row :: Matches(w, row) ==> InOrg(row, org)
  }

  lemma PartCons(x: Row, s: seq<Row>, org: string, own: bool)
    ensures Part([x] + s, org, own) == (if InOrg(x, org) == own then [x] else []) + Part(s, org, own)
  {
    assert ([x] + s)[1..] == s;
  }

  lemma {:induction false} PartAppend(a: seq<Row>, b: seq<Row>, org: string, own: bool)
    ensures Part(a + b, org, own) == Part(a, org, own) + Part(b, org, own)
  {
    if a == [] {
      assert a + b == b;
    } else {
      var rest := a[1..];
      assert a == [a[0]] + rest && a + b == [a[0]] + (rest + b);
      PartAppend(rest, b, org, own);
      PartCons(a[0], rest, org, own);
      PartCons(a[0], rest + b, org, own);
    }
  }

  lemma {:induction false} FilterOwn(s: seq<Row>, w: Where, org: string)
    requires Confined(w, org)
    ensures Filter(s, w) == Filter(Own(s, org), w)
  {
    if s != [] {
      FilterOwn(s[1..], w, org);
      if InOrg(s[0], org) { assert Own(s, org)[1..] == Own(s[1..], org); }
    }
  }

  lemma {:induction false} WithoutParts(s: seq<Row>, w: Where, org: string)
    requires Confined(w, org)
    ensures Own(Without(s, w), org) == Without(Own(s, org), w)
    ensures Foreign(Without(s, w), org) == Foreign(s, org)
  {
    if s != [] {
      WithoutParts(s[1..], w, org);
      if InOrg(s[0], org) { assert Own(s, org)[1..] == Own(s[1..], org); }
      if !Matches(w, s[0]) { assert Without(s, w)[1..] == Without(s[1..], w); }
    }
  }

  lemma {:induction false} DropFirstParts(s: seq<Row>, w: Where, org: string)
    requires Confined(w, org)
    ensures Own(DropFirst(s, w), org) == DropFirst(Own(s, org), w)
    ensures Foreign(DropFirst(s, w), org) == Foreign(s, org)
  {
    if s != [] {
      DropFirstParts(s[1..], w, org);
      if InOrg(s[0], org) { assert Own(s, org)[1..] == Own(s[1..], org); }
      if !Matches(w, s[0]) { assert DropFirst(s, w)[1..] == DropFirst(s[1..], w); }
    }
  }

  lemma {:induction false} WriteAllParts(s: seq<Row>, w: Where, d: Data, org: string)
    requires Confined(w, org) && ValidUpdate(d) && !HomesElsewhere(d, org)
    ensures Own(WriteAll(s, w, d), org) == WriteAll(Own(s, org), w, d)
    ensures Foreign(WriteAll(s, w, d), org) == Foreign(s, org)
  {
    if s != [] {
      WriteAllParts(s[1..], w, d, org);
      assert WriteAll(s, w, d)[1..] == WriteAll(s[1..], w, d);
      if InOrg(s[0], org) {
        assert Own(s, org)[1..] == Own(s[1..], org);
      }
    }
  }

  lemma {:induction false} WriteFirstParts(s: seq<Row>, w: Where, d: Data, org: string)
    requires Confined(w, org) && ValidUpdate(d) && !HomesElsewhere(d, org)
    ensures Own(WriteFirst(s, w, d), org) == WriteFirst(Own(s, org), w, d)
    ensures Foreign(WriteFirst(s, w, d), org) == Foreign(s, org)
  {
    if s != [] {
      WriteFirstParts(s[1..], w, d, org);
      assert WriteFirst(s, w, d)[1..] == if Matches(w, s[0]) then s[1..] else WriteFirst(s[1..], w, d);
      if InOrg(s[0], org) {
        assert Own(s, org)[1..] == Own(s[1..], org);
      }
    }
  }

  lemma {:induction false} BuiltParts(ds: seq<Data>, org: string)
    requires AllValid(ds) && AllHome(ds, org)
    ensures Own(Built(ds), org) == Built(ds) && Foreign(Built(ds), org) == []
  {
    if ds != [] {
      assert forall i :: 0 <= i < |ds[1..]| ==> ds[1..][i] == ds[i + 1];
      BuiltParts(ds[1..], org);
      assert Built(ds)[1..] == Built(ds[1..]);
      assert ValidCreate(ds[0]) && !HomesElsewhere(ds[0], org);
    }
  }

  lemma InsertParts(s: seq<Row>, ds: seq<Data>, org: string)
    requires AllValid(ds) && AllHome(ds, org)
    ensures Own(s + Built(ds), org) == Own(s, org) + Built(ds)
    ensures Foreign(s + Built(ds), org) == Foreign(s, org)
  {
    PartAppend(s, Built(ds), org, true);
    PartAppend(s, Built(ds), org, false);
    BuiltParts(ds, org);
  }

  // ------------------------------------------------------------ what is rewritten

  predicate AllHome(ds: seq<Data>, org: string) {
    forall i :: 0 <= i < |ds| ==> !HomesElsewhere(ds[i], org)
  }

  /** Every filter of the operation stays within the organization. */
  ghost predicate Reaches(op: Op, org: string) {
    match op
    case Create(_) => true
    case CreateMany(_) => true
    case CreateManyAndReturn(_) => true
    case Upsert(w, _, _) => Confined(w, org)
    case Update(w, _) => Confined(w, org)
    case Delete(w) => Confined(w, org)
    case FindUnique(w) => Confined(w, org)
    case FindUniqueOrThrow(w) => Confined(w, org)
    case FindFirst(w) => Confined(Given(w), org)
    case FindFirstOrThrow(w) => Confined(Given(w), org)
    case FindMany(w) => Confined(Given(w), org)
    case Count(w) => Confined(Given(w), org)
    case Aggregate(w) => Confined(Given(w), org)
    case GroupBy(w) => Confined(Given(w), org)
    case UpdateMany(w, _) => Confined(Given(w), org)
    case DeleteMany(w) => Confined(Given(w), org)
  }

  /** Whatever the operation may write belongs to the organization. */
  predicate Places(op: Op, org: string) {
    match op
    case Create(d) => ValidCreate(d) ==> !HomesElsewhere(d, org)
    case CreateMany(ds) => ValidMany(ds) ==> AllHome(ds, org)
    case CreateManyAndReturn(ds) => ValidMany(ds) ==> AllHome(ds, org)
    case Upsert(_, c, u) => ValidCreate(c) && ValidUpdate(u) ==> !HomesElsewhere(c, org) && !HomesElsewhere(u, org)
    case Update(_, d) => ValidUpdate(d) ==> !HomesElsewhere(d, org)
    case UpdateMany(_, d) => ValidUpdateMany(d) ==> !HomesElsewhere(d, org)
    case _ => true
  }

  /** A confined operation acts on the whole store as it does on the organization's
      own rows alone, and leaves every other row as it is. */
  lemma ConfinedAttempt(op: Op, org: string, s: seq<Row>)
    requires Reaches(op, org) && Places(op, org)
    ensures Own(Attempt(op, s).0, org) == Attempt(op, Own(s, org)).0
    ensures Attempt(op, s).1 == Attempt(op, Own(s, org)).1
    ensures Foreign(Attempt(op, s).0, org) == Foreign(s, org)
  {
    match op
    case Create(d) => if ValidCreate(d) { InsertParts(s, [d], org); }
    case CreateMany(ds) => if ValidMany(ds) { InsertParts(s, ds, org); }
    case CreateManyAndReturn(ds) => if ValidMany(ds) { InsertParts(s, ds, org); }
    case Upsert(w, c, u) =>
      FilterOwn(s, w, org);
      if ValidCreate(c) && ValidUpdate(u) { InsertParts(s, [c], org); WriteFirstParts(s, w, u, org); }
    case Update(w, d) => FilterOwn(s, w, org); if ValidUpdate(d) { WriteFirstParts(s, w, d, org); }
    case Delete(w) => FilterOwn(s, w, org); DropFirstParts(s, w, org);
    case FindUnique(w) => FilterOwn(s, w, org);
    case FindUniqueOrThrow(w) => FilterOwn(s, w, org);
    case FindFirst(w) => FilterOwn(s, Given(w), org);
    case FindFirstOrThrow(w) => FilterOwn(s, Given(w), org);
    case FindMany(w) => FilterOwn(s, Given(w), org);
    case Count(w) => FilterOwn(s, Given(w), org);
    case Aggregate(w) => FilterOwn(s, Given(w), org);
    case GroupBy(w) => FilterOwn(s, Given(w), org);
    case UpdateMany(w, d) => FilterOwn(s, Given(w), org); if ValidUpdateMany(d) { WriteAllParts(s, Given(w), d, org); }
    case DeleteMany(w) => FilterOwn(s, Given(w), org); WithoutParts(s, Given(w), org);
  }

  lemma UniqueConfined(w: Where, org: string)
    ensures Confined(MergeOrgWhereUnique(w, org), org)
  {
    var r := MergeOrgWhereUnique(w, org);
    var i := SetFieldAt(w.fields, ORG, Is(Text(org)));
    forall row | Matches(r, row) ensures InOrg(row, org) {
      assert CondHolds(r.fields[i].0, r.fields[i].1, row);
    }
  }

  /** What a caller can check: the forms that the scoping lets through name this
      organization. */
  predicate NamesHome(d: Data, org: string) {
    && (d.connect.Some? ==> d.connect.value == org)
    && (ORG in d.columns && d.columns[ORG].SetTo? && d.columns[ORG].v.Text? ==> d.columns[ORG].v.s == org)
  }

  lemma AppliedHome(d: Data, org: string, inject: bool)
    requires ApplyOrg(d, org, inject).Some?
    ensures var r := ApplyOrg(d, org, inject).value;
            ValidCreate(r) || ValidUpdate(r) ==> (HomesElsewhere(r, org) <==> !NamesHome(d, org))
  {
  }

  /** Without relations the check covers every form in which many rows are written. */
  lemma {:induction false} AppliedAll(ds: seq<Data>, org: string)
    requires ApplyOrgAll(ds, org).Some? && ValidMany(ApplyOrgAll(ds, org).value)
    ensures AllHome(ApplyOrgAll(ds, org).value, org)
  {
    if ds != [] {
      var r, rest := ApplyOrgAll(ds, org).value, ApplyOrgAll(ds[1..], org).value;
      assert r[1..] == rest && r[0] == ApplyOrg(ds[0], org, true).value && ValidCreate(r[0]) && r[0].connect.None?;
      assert forall i :: 0 <= i < |rest| ==> rest[i] == r[i + 1];
      AppliedAll(ds[1..], org);
      forall i | 0 <= i < |r| ensures !HomesElsewhere(r[i], org) { assert i > 0 ==> r[i] == rest[i - 1]; }
    }
  }

  /** The data of the operation names this organization wherever the scoping does not
      look: relation and `set` forms, and every form that an `updateMany` takes. */
  predicate HomeOp(op: Op, org: string) {
    match op
    case Create(d) => NamesHome(d, org)
    case Upsert(_, c, u) => NamesHome(c, org) && NamesHome(u, org)
    case Update(_, d) => NamesHome(d, org)
    case UpdateMany(_, d) => ValidUpdateMany(d) ==> !HomesElsewhere(d, org)
    case _ => true
  }

  lemma SentReaches(op: Op, org: string)
    requires Sent(op, org).Some?
    ensures Reaches(Sent(op, org).value, org)
  {
    match op
    case Upsert(w, _, _) => UniqueConfined(w, org);
    case Update(w, _) => UniqueConfined(w, org);
    case Delete(w) => UniqueConfined(w, org);
    case _ =>
  }

  lemma SentPlaces(op: Op, org: string)
    requires Sent(op, org).Some? && HomeOp(op, org)
    ensures Places(Sent(op, org).value, org)
  {
    match op
    case Create(d) => AppliedHome(d, org, true);
    case CreateMany(ds) => if ValidMany(ApplyOrgAll(ds, org).value) { AppliedAll(ds, org); }
    case CreateManyAndReturn(ds) => if ValidMany(ApplyOrgAll(ds, org).value) { AppliedAll(ds, org); }
    case Upsert(_, c, u) => AppliedHome(c, org, true); AppliedHome(u, org, false);
    case Update(_, d) => AppliedHome(d, org, false);
    case _ =>
  }

  /** The operation's data names another organization where the scoping looks: in a plain
      string, and not in an `updateMany`. */
  predicate Refused(op: Op, org: string) {
    match op
    case Create(d) => NamesAnother(d, org)
    case CreateMany(ds) => AnyNamesAnother(ds, org)
    case CreateManyAndReturn(ds) => AnyNamesAnother(ds, org)
    case Upsert(_, c, u) => NamesAnother(c, org) || NamesAnother(u, org)
    case Update(_, d) => NamesAnother(d, org)
    case _ => false
  }

  /** What is sent carries the data that was given. */
  ghost predicate CarriesData(op: Op, org: string, sent: Op) {
    match op
    case Create(d) => sent == Create(Stamped(d, org))
    case CreateMany(ds) => sent == CreateMany(StampedAll(ds, org))
    case CreateManyAndReturn(ds) => sent == CreateManyAndReturn(StampedAll(ds, org))
    case Upsert(w, c, u) => sent == Upsert(MergeOrgWhereUnique(w, org), Stamped(c, org), u)
    case Update(w, d) => sent == Update(MergeOrgWhereUnique(w, org), d)
    case _ => true
  }

  lemma DataSent(op: Op, org: string)
    ensures Sent(op, org).None? <==> Refused(op, org)
    ensures Sent(op, org).Some? ==> CarriesData(op, org, Sent(op, org).value)
  {
    match op
    case Create(d) => AppliedExactly(d, org, true);
    case CreateMany(ds) => AppliedRows(ds, org);
    case CreateManyAndReturn(ds) => AppliedRows(ds, org);
    case Upsert(_, c, u) => AppliedExactly(c, org, true); AppliedExactly(u, org, false);
    case Update(_, d) => AppliedExactly(d, org, false);
    case _ =>
  }

  /** What the extension lets through: everything for a model that no tenant owns and for
      an admin scope; for a tenant's model nothing without a scope, and in the scope of an
      organization whatever does not name another one, with every filter confined. */
  ghost predicate LetThrough(tenantModel: bool, scope: Option<Scope>, op: Op, r: Option<Op>) {
    && (!tenantModel || scope == Some(AdminScope) ==> r == Some(op))
    && (tenantModel && scope.None? ==> r.None?)
    && (tenantModel && scope.Some? && scope.value.OrgScope? ==>
          var org := scope.value.organizationId;
          (r.None? <==> Refused(op, org)) && (r.Some? ==> Reaches(r.value, org)))
  }

  lemma DispatchExactly(tenantModel: bool, scope: Option<Scope>, op: Op)
    ensures LetThrough(tenantModel, scope, op, Dispatch(tenantModel, scope, op))
  {
    if scope.Some? && scope.value.OrgScope? {
      DataSent(op, scope.value.organizationId);
      if !Refused(op, scope.value.organizationId) { SentReaches(op, scope.value.organizationId); }
    }
  }

  // ------------------------------------------- other organizations keep their rows

  /** The row written by this operation goes to another organization. */
  predicate Misplaces(op: Op, org: string, s: seq<Row>) {
    match op
    case Create(d) => HomesElsewhere(d, org)
    case CreateMany(ds) => !AllHome(ds, org)
    case CreateManyAndReturn(ds) => !AllHome(ds, org)
    case Upsert(w, c, u) => HomesElsewhere(if Filter(s, w) == [] then c else u, org)
    case Update(_, d) => HomesElsewhere(d, org)
    case UpdateMany(w, d) => HomesElsewhere(d, org) && Filter(s, Given(w)) != []
    case _ => false
  }

  lemma {:induction false} InsertForeign(s: seq<Row>, ds: seq<Data>, org: string)
    requires AllValid(ds)
    ensures Foreign(s + Built(ds), org) == Foreign(s, org) <==> AllHome(ds, org)
  {
    PartAppend(s, Built(ds), org, false);
    if AllHome(ds, org) {
      BuiltParts(ds, org);
    } else {
      var i :| 0 <= i < |ds| && HomesElsewhere(ds[i], org);
      BuiltForeign(ds, i, org);
    }
  }

  lemma {:induction false} BuiltForeign(ds: seq<Data>, i: nat, org: string)
    requires AllValid(ds) && i < |ds| && HomesElsewhere(ds[i], org)
    ensures |Foreign(Built(ds), org)| > 0
  {
    assert Built(ds)[1..] == Built(ds[1..]) && ValidCreate(ds[0]);
    if i > 0 {
      assert forall j :: 0 <= j < |ds[1..]| ==> ds[1..][j] == ds[j + 1];
      BuiltForeign(ds[1..], i - 1, org);
    }
  }

  lemma {:induction false} WriteAllForeign(s: seq<Row>, w: Where, d: Data, org: string)
    requires Confined(w, org) && ValidUpdate(d) && HomesElsewhere(d, org)
    ensures |Foreign(WriteAll(s, w, d), org)| == |Foreign(s, org)| + |Filter(s, w)|
  {
    if s != [] {
      WriteAllForeign(s[1..], w, d, org);
      assert WriteAll(s, w, d)[1..] == WriteAll(s[1..], w, d);
    }
  }

  lemma {:induction false} WriteFirstForeign(s: seq<Row>, w: Where, d: Data, org: string)
    requires Confined(w, org) && ValidUpdate(d) && HomesElsewhere(d, org) && Filter(s, w) != []
    ensures |Foreign(WriteFirst(s, w, d), org)| == |Foreign(s, org)| + 1
  {
    assert WriteFirst(s, w, d)[1..] == if Matches(w, s[0]) then s[1..] else WriteFirst(s[1..], w, d);
    if !Matches(w, s[0]) { WriteFirstForeign(s[1..], w, d, org); }
  }

  lemma AttemptForeign(op: Op, org: string, s: seq<Row>)
    requires Reaches(op, org) && Succeeded(Attempt(op, s).1)
    ensures Foreign(Attempt(op, s).0, org) == Foreign(s, org) <==> !Misplaces(op, org, s)
  {
    match op
    case Create(d) => InsertForeign(s, [d], org);
    case CreateMany(ds) => InsertForeign(s, ds, org);
    case CreateManyAndReturn(ds) => InsertForeign(s, ds, org);
    case Upsert(w, c, u) =>
      if Filter(s, w) == [] { InsertForeign(s, [c], org); }
      else if HomesElsewhere(u, org) { WriteFirstForeign(s, w, u, org); } else { WriteFirstParts(s, w, u, org); }
    case Update(w, d) =>
      if HomesElsewhere(d, org) { WriteFirstForeign(s, w, d, org); } else { WriteFirstParts(s, w, d, org); }
    case Delete(w) => DropFirstParts(s, w, org);
    case UpdateMany(w, d) =>
      if HomesElsewhere(d, org) {
        WriteAllForeign(s, Given(w), d, org);
        if Filter(s, Given(w)) == [] { NothingWritten(s, Given(w), d); }
      } else {
        WriteAllParts(s, Given(w), d, org);
      }
    case DeleteMany(w) => WithoutParts(s, Given(w), org);
    case _ =>
  }

  lemma {:induction false} NothingWritten(s: seq<Row>, w: Where, d: Data)
    requires Filter(s, w) == []
    ensures WriteAll(s, w, d) == s
  {
    if s != [] { NothingWritten(s[1..], w, d); }
  }

  /** The row that the caller's operation writes is meant for its own organization. */
  predicate MeantHome(op: Op, org: string, s: seq<Row>) {
    match op
    case Upsert(w, c, u) => NamesHome(if Filter(s, MergeOrgWhereUnique(w, org)) == [] then c else u, org)
    case UpdateMany(w, d) => HomesElsewhere(d, org) ==> Filter(s, MergeOrgWhere(w, org)) == []
    case _ => HomeOp(op, org)
  }

  lemma MisplacedExactly(op: Op, org: string, s: seq<Row>)
    requires Sent(op, org).Some? && Succeeded(Attempt(Sent(op, org).value, s).1)
    ensures Misplaces(Sent(op, org).value, org, s) <==> !MeantHome(op, org, s)
  {
    match op
    case Create(d) => AppliedHome(d, org, true);
    case CreateMany(ds) => AppliedAll(ds, org);
    case CreateManyAndReturn(ds) => AppliedAll(ds, org);
    case Upsert(_, c, u) => AppliedHome(c, org, true); AppliedHome(u, org, false);
    case Update(_, d) => AppliedHome(d, org, false);
    case _ =>
  }

  /** One operation in the scope of an organization leaves the rows of all others as
      they are, in every store, if and only if the row it writes is meant for its own
      organization in the forms that the scoping does not look at; an operation that
      reports an error changes nothing. */
  lemma ForeignUnchangedExactly(keys: Keys, op: Op, org: string, s: seq<Row>)
    ensures !Succeeded(Scoped(keys, op, org, s).1) ==> Scoped(keys, op, org, s).0 == s
    ensures Succeeded(Scoped(keys, op, org, s).1) ==>
              (Foreign(Scoped(keys, op, org, s).0, org) == Foreign(s, org) <==> MeantHome(op, org, s))
  {
    if Succeeded(Scoped(keys, op, org, s).1) {
      var rewritten := Sent(op, org).value;
      SentReaches(op, org);
      AttemptForeign(rewritten, org, s);
      MisplacedExactly(op, org, s);
    }
  }

  // ------------------------------------------------------------- non-interference

  /** Every unique constraint covers the organization. */
  predicate PerTenant(keys: Keys) {
    forall k :: 0 <= k < |keys| ==> ORG in keys[k]
  }

  lemma {:induction false} UniqueAmongPart(keys: Keys, row: Row, s: seq<Row>, org: string)
    requires PerTenant(keys)
    ensures UniqueAmong(keys, row, s) <==> UniqueAmong(keys, row, Part(s, org, true)) && UniqueAmong(keys, row, Part(s, org, false))
    ensures UniqueAmong(keys, row, Part(s, org, !InOrg(row, org)))
  {
    if s != [] {
      UniqueAmongPart(keys, row, s[1..], org);
      AmongCons(keys, row, s);
      AmongCons(keys, row, Part(s, org, true));
      AmongCons(keys, row, Part(s, org, false));
    }
  }

  lemma AmongCons(keys: Keys, row: Row, s: seq<Row>)
    ensures UniqueAmong(keys, row, s) <==> s == [] || (!Conflict(keys, row, s[0]) && UniqueAmong(keys, row, s[1..]))
  {
    if s != [] && !Conflict(keys, row, s[0]) && UniqueAmong(keys, row, s[1..]) {
      forall i | 0 <= i < |s| ensures !Conflict(keys, row, s[i]) { assert i > 0 ==> s[i] == s[1..][i - 1]; }
    }
  }

  /** Constraints that cover the organization are checked tenant by tenant. */
  lemma {:induction false} UniqueSplits(keys: Keys, s: seq<Row>, org: string)
    requires PerTenant(keys)
    ensures UniqueOk(keys, s) <==> UniqueOk(keys, Own(s, org)) && UniqueOk(keys, Foreign(s, org))
  {
    if s != [] {
      UniqueSplits(keys, s[1..], org);
      UniqueAmongPart(keys, s[0], s[1..], org);
      var part := Part(s, org, InOrg(s[0], org));
      assert part[0] == s[0] && part[1..] == Part(s[1..], org, InOrg(s[0], org));
    }
  }

  lemma {:induction false} OwnOfOwn(s: seq<Row>, org: string)
    ensures Own(Own(s, org), org) == Own(s, org) && Foreign(Own(s, org), org) == []
  {
    if s != [] {
      OwnOfOwn(s[1..], org);
      if InOrg(s[0], org) { assert Own(s, org)[1..] == Own(s[1..], org); }
    }
  }

  lemma {:induction false} OwnOfForeign(s: seq<Row>, org: string, other: string)
    requires org != other
    ensures Own(Foreign(s, other), org) == Own(s, org)
  {
    if s != [] {
      OwnOfForeign(s[1..], org, other);
      if !InOrg(s[0], other) { assert Foreign(s, other)[1..] == Foreign(s[1..], other); }
    }
  }

  lemma {:induction false} WriteAllOwn(s: seq<Row>, w: Where, d: Data, org: string)
    requires Confined(w, org)
    ensures Own(WriteAll(s, w, d), org) == Own(WriteAll(Own(s, org), w, d), org)
  {
    if s != [] {
      WriteAllOwn(s[1..], w, d, org);
      assert WriteAll(s, w, d)[1..] == WriteAll(s[1..], w, d);
      if InOrg(s[0], org) {
        assert Own(s, org)[1..] == Own(s[1..], org);
        assert WriteAll(Own(s, org), w, d)[1..] == WriteAll(Own(s[1..], org), w, d);
      }
    }
  }

  lemma {:induction false} WriteFirstOwn(s: seq<Row>, w: Where, d: Data, org: string)
    requires Confined(w, org)
    ensures Own(WriteFirst(s, w, d), org) == Own(WriteFirst(Own(s, org), w, d), org)
  {
    if s != [] {
      OwnOfOwn(s[1..], org);
      WriteFirstOwn(s[1..], w, d, org);
      assert WriteFirst(s, w, d)[1..] == if Matches(w, s[0]) then s[1..] else WriteFirst(s[1..], w, d);
      if InOrg(s[0], org) {
        var own := Own(s, org);
        assert own[0] == s[0] && own[1..] == Own(s[1..], org);
        assert WriteFirst(own, w, d)[1..] == if Matches(w, s[0]) then own[1..] else WriteFirst(own[1..], w, d);
      }
    }
  }

  lemma InsertOwn(s: seq<Row>, ds: seq<Data>, org: string)
    ensures Own(s + Built(ds), org) == Own(Own(s, org) + Built(ds), org)
  {
    PartAppend(s, Built(ds), org, true);
    PartAppend(Own(s, org), Built(ds), org, true);
    OwnOfOwn(s, org);
  }

  /** An operation that reaches no other organization's rows answers from the
      organization's own, and what becomes of these depends on nothing else, wherever
      the rows it writes may go. */
  lemma ReachingAttempt(op: Op, org: string, s: seq<Row>)
    requires Reaches(op, org)
    ensures Attempt(op, s).1 == Attempt(op, Own(s, org)).1
    ensures Own(Attempt(op, s).0, org) == Own(Attempt(op, Own(s, org)).0, org)
  {
    OwnOfOwn(s, org);
    match op
    case Create(d) => InsertOwn(s, [d], org);
    case CreateMany(ds) => InsertOwn(s, ds, org);
    case CreateManyAndReturn(ds) => InsertOwn(s, ds, org);
    case Upsert(w, c, u) => FilterOwn(s, w, org); InsertOwn(s, [c], org); WriteFirstOwn(s, w, u, org);
    case Update(w, d) => FilterOwn(s, w, org); WriteFirstOwn(s, w, d, org);
    case Delete(w) => FilterOwn(s, w, org); DropFirstParts(s, w, org); DropFirstParts(Own(s, org), w, org);
    case FindUnique(w) => FilterOwn(s, w, org);
    case FindUniqueOrThrow(w) => FilterOwn(s, w, org);
    case FindFirst(w) => FilterOwn(s, Given(w), org);
    case FindFirstOrThrow(w) => FilterOwn(s, Given(w), org);
    case FindMany(w) => FilterOwn(s, Given(w), org);
    case Count(w) => FilterOwn(s, Given(w), org);
    case Aggregate(w) => FilterOwn(s, Given(w), org);
    case GroupBy(w) => FilterOwn(s, Given(w), org);
    case UpdateMany(w, d) => FilterOwn(s, Given(w), org); WriteAllOwn(s, Given(w), d, org);
    case DeleteMany(w) =>
      FilterOwn(s, Given(w), org);
      WithoutParts(s, Given(w), org);
      WithoutParts(Own(s, org), Given(w), org);
  }

  /** Two stores that hold the same rows of an organization cannot be told apart from
      within its scope, by any operation, unless another tenant's row collides on a
      unique key: the answer is the same, and so are the organization's rows afterwards. */
  lemma NonInterference(keys: Keys, op: Op, org: string, s: seq<Row>, t: seq<Row>)
    requires Own(s, org) == Own(t, org)
    ensures var (s', o), (t', p) := Scoped(keys, op, org, s), Scoped(keys, op, org, t);
            && (o != UniqueViolation && p != UniqueViolation ==> o == p && Own(s', org) == Own(t', org))
            && (o == UniqueViolation ==> s' == s)
  {
    if Sent(op, org).Some? {
      SentReaches(op, org);
      ReachingAttempt(Sent(op, org).value, org, s);
      ReachingAttempt(Sent(op, org).value, org, t);
    }
  }

  lemma {:induction false} RemovalKeepsUnique(keys: Keys, s: seq<Row>, w: Where)
    requires UniqueOk(keys, s)
    ensures UniqueOk(keys, Without(s, w)) && UniqueOk(keys, DropFirst(s, w))
    ensures forall row :: UniqueAmong(keys, row, s) ==>
              UniqueAmong(keys, row, Without(s, w)) && UniqueAmong(keys, row, DropFirst(s, w))
  {
    if s != [] {
      RemovalKeepsUnique(keys, s[1..], w);
      assert !Matches(w, s[0]) ==> Without(s, w)[1..] == Without(s[1..], w) && DropFirst(s, w)[1..] == DropFirst(s[1..], w);
      forall row | UniqueAmong(keys, row, s)
        ensures UniqueAmong(keys, row, Without(s, w)) && UniqueAmong(keys, row, DropFirst(s, w))
      {
        AmongCons(keys, row, s);
        AmongCons(keys, row, Without(s, w));
        AmongCons(keys, row, DropFirst(s, w));
      }
    }
  }

  lemma ExecKeepsUnique(keys: Keys, op: Op, s: seq<Row>)
    requires UniqueOk(keys, s)
    ensures UniqueOk(keys, Exec(keys, op, s).0)
  {
    match op
    case Delete(w) => RemovalKeepsUnique(keys, s, w);
    case DeleteMany(w) => RemovalKeepsUnique(keys, s, Given(w));
    case _ =>
  }

  lemma {:induction false} UniquePart(keys: Keys, s: seq<Row>, org: string, own: bool)
    requires UniqueOk(keys, s)
    ensures UniqueOk(keys, Part(s, org, own))
    ensures forall row :: UniqueAmong(keys, row, s) ==> UniqueAmong(keys, row, Part(s, org, own))
  {
    if s != [] {
      UniquePart(keys, s[1..], org, own);
      assert InOrg(s[0], org) == own ==> Part(s, org, own)[1..] == Part(s[1..], org, own);
      forall row | UniqueAmong(keys, row, s) ensures UniqueAmong(keys, row, Part(s, org, own)) {
        AmongCons(keys, row, s);
        AmongCons(keys, row, Part(s, org, own));
      }
    }
  }

  /** Whatever the constraints: an operation that does not report a collision does, and
      answers, what it would on a database that holds no other tenant. */
  lemma NoCollisionOnOwn(keys: Keys, op: Op, org: string, s: seq<Row>)
    requires HomeOp(op, org) && Scoped(keys, op, org, s).1 != UniqueViolation
    ensures Own(Scoped(keys, op, org, s).0, org) == Scoped(keys, op, org, Own(s, org)).0
    ensures Scoped(keys, op, org, s).1 == Scoped(keys, op, org, Own(s, org)).1
    ensures Foreign(Scoped(keys, op, org, s).0, org) == Foreign(s, org)
  {
    if Sent(op, org).Some? {
      var rewritten := Sent(op, org).value;
      SentReaches(op, org);
      SentPlaces(op, org);
      ConfinedAttempt(rewritten, org, s);
      if UniqueOk(keys, Attempt(rewritten, s).0) { UniquePart(keys, Attempt(rewritten, s).0, org, true); }
    }
  }

  /** Requests of any tenants, in any order. */
  datatype Traffic = Quiet | Next(earlier: Traffic, org: string, op: Op)

  function After(keys: Keys, s: seq<Row>, t: Traffic): seq<Row> {
    match t
    case Quiet => s
    case Next(earlier, org, op) => Scoped(keys, op, org, After(keys, s, earlier)).0
  }

  /** What one tenant asked for, without everyone else. */
  function Mine(t: Traffic, org: string): Traffic {
    match t
    case Quiet => Quiet
    case Next(earlier, who, op) => if who == org then Next(Mine(earlier, org), who, op) else Mine(earlier, org)
  }

  predicate AllHomeOps(t: Traffic) {
    t.Next? ==> HomeOp(t.op, t.org) && AllHomeOps(t.earlier)
  }

  /** The requests of all other tenants keep to their own organizations. */
  predicate OthersHome(t: Traffic, org: string) {
    t.Next? ==> (t.org == org || HomeOp(t.op, t.org)) && OthersHome(t.earlier, org)
  }

  /** No request of the run reports a collision. */
  predicate NoCollisions(keys: Keys, s: seq<Row>, t: Traffic) {
    t.Next? ==> NoCollisions(keys, s, t.earlier) && Scoped(keys, t.op, t.org, After(keys, s, t.earlier)).1 != UniqueViolation
  }

  lemma OtherKeepsMine(keys: Keys, op: Op, who: string, org: string, s: seq<Row>)
    requires who != org && HomeOp(op, who) && Scoped(keys, op, who, s).1 != UniqueViolation
    ensures Own(Scoped(keys, op, who, s).0, org) == Own(s, org)
  {
    NoCollisionOnOwn(keys, op, who, s);
    OwnOfForeign(s, org, who);
    OwnOfForeign(Scoped(keys, op, who, s).0, org, who);
  }

  /** Over every interleaving of tenants without a reported collision, and under any
      constraints, an organization's rows are what its own requests alone would have
      made of its own initial rows. */
  lemma {:induction false} TenantsAreIsolated(keys: Keys, s: seq<Row>, t: Traffic, org: string)
    requires AllHomeOps(t) && NoCollisions(keys, s, t)
    ensures Own(After(keys, s, t), org) == After(keys, Own(s, org), Mine(t, org))
  {
    match t
    case Quiet =>
    case Next(earlier, who, op) =>
      var before := After(keys, s, earlier);
      TenantsAreIsolated(keys, s, earlier, org);
      if who == org { NoCollisionOnOwn(keys, op, who, before); } else { OtherKeepsMine(keys, op, who, org, before); }
  }

  /** So every answer a tenant gets is the one it would get alone. */
  lemma AnswersAreIsolated(keys: Keys, s: seq<Row>, t: Traffic, org: string, op: Op)
    requires AllHomeOps(t) && NoCollisions(keys, s, t) && HomeOp(op, org)
    requires Scoped(keys, op, org, After(keys, s, t)).1 != UniqueViolation
    ensures Scoped(keys, op, org, After(keys, s, t)).1 ==
            Scoped(keys, op, org, After(keys, Own(s, org), Mine(t, org))).1
  {
    TenantsAreIsolated(keys, s, t, org);
    NoCollisionOnOwn(keys, op, org, After(keys, s, t));
  }

  /** An organization that moves rows away itself is no better informed for it: as long
      as the others keep to their own, its rows are still those of the run it would have
      had alone, if neither run reports a collision. */
  lemma {:induction false} IsolatedFromOthers(keys: Keys, s: seq<Row>, t: Traffic, org: string)
    requires OthersHome(t, org) && NoCollisions(keys, s, t) && NoCollisions(keys, Own(s, org), Mine(t, org))
    ensures Own(After(keys, s, t), org) == Own(After(keys, Own(s, org), Mine(t, org)), org)
  {
    match t
    case Quiet => OwnOfOwn(s, org);
    case Next(earlier, who, op) =>
      var before := After(keys, s, earlier);
      IsolatedFromOthers(keys, s, earlier, org);
      if who == org {
        NonInterference(keys, op, org, before, After(keys, Own(s, org), Mine(earlier, org)));
      } else {
        OtherKeepsMine(keys, op, who, org, before);
      }
  }

  // --------------------------------------------------- when collisions tell nothing

  /** With constraints that cover the organization even collisions are the tenant's own. */
  lemma ScopedOnOwn(keys: Keys, op: Op, org: string, s: seq<Row>)
    requires HomeOp(op, org) && PerTenant(keys) && UniqueOk(keys, s)
    ensures Own(Scoped(keys, op, org, s).0, org) == Scoped(keys, op, org, Own(s, org)).0
    ensures Scoped(keys, op, org, s).1 == Scoped(keys, op, org, Own(s, org)).1
    ensures Foreign(Scoped(keys, op, org, s).0, org) == Foreign(s, org)
    ensures UniqueOk(keys, Scoped(keys, op, org, s).0) && UniqueOk(keys, Own(s, org))
  {
    UniqueSplits(keys, s, org);
    if Sent(op, org).Some? {
      var rewritten := Sent(op, org).value;
      SentReaches(op, org);
      SentPlaces(op, org);
      ConfinedAttempt(rewritten, org, s);
      UniqueSplits(keys, Attempt(rewritten, s).0, org);
      ExecKeepsUnique(keys, rewritten, s);
    }
  }

  /** A create that sets the columns of a key, and the row it makes for an organization. */
  function KeyData(key: set<string>): Data {
    Data(map c | c in key :: To(Number(1)), None)
  }

  function KeyRow(key: set<string>, org: string): Row {
    (map c | c in key :: Number(1))[ORG := Text(org)]
  }

  /** A key that does not cover the organization, whichever it is, tells one tenant about
      another: a create that succeeds on an empty store collides beside a foreign row. */
  lemma CollisionShows(keys: Keys, k: nat, a: string, b: string)
    requires k < |keys| && ORG !in keys[k] && a != b
    ensures var create, foreign := Create(KeyData(keys[k])), [KeyRow(keys[k], a)];
            && HomeOp(create, b) && UniqueOk(keys, foreign) && Own(foreign, b) == []
            && Scoped(keys, create, b, []) == ([KeyRow(keys[k], b)], Found([KeyRow(keys[k], b)]))
            && Scoped(keys, create, b, foreign) == (foreign, UniqueViolation)
  {
    KeyCreate(keys, keys[k], b, []);
    KeyCreate(keys, keys[k], b, [KeyRow(keys[k], a)]);
    OneForeign(KeyRow(keys[k], a), b);
    SingletonUnique(keys, KeyRow(keys[k], a));
    SingletonUnique(keys, KeyRow(keys[k], b));
    assert [] + [KeyRow(keys[k], b)] == [KeyRow(keys[k], b)];
    PairCollides(keys, k, a, b);
    assert [KeyRow(keys[k], a)] + [KeyRow(keys[k], b)] == [KeyRow(keys[k], a), KeyRow(keys[k], b)];
  }

  lemma OneForeign(row: Row, org: string)
    requires !InOrg(row, org)
    ensures Own([row], org) == []
  {
    assert [row][0] == row;
    assert Part([row][1..], org, true) == [];
  }

  /** What the create does in a store. */
  lemma KeyCreate(keys: Keys, key: set<string>, org: string, s: seq<Row>)
    requires ORG !in key
    ensures HomeOp(Create(KeyData(key)), org)
    ensures Scoped(keys, Create(KeyData(key)), org, s) ==
            if UniqueOk(keys, s + [KeyRow(key, org)]) then (s + [KeyRow(key, org)], Found([KeyRow(key, org)]))
            else (s, UniqueViolation)
  {
    var d := KeyData(key);
    var homed := d.(columns := d.columns[ORG := To(Text(org))]);
    assert ApplyOrg(d, org, true) == Some(homed);
    assert Written(map[], homed) == KeyRow(key, org);
    assert [homed][1..] == [];
    assert Built([homed]) == [KeyRow(key, org)];
  }

  lemma PairCollides(keys: Keys, k: nat, a: string, b: string)
    requires k < |keys| && ORG !in keys[k]
    ensures !UniqueOk(keys, [KeyRow(keys[k], a), KeyRow(keys[k], b)])
  {
    var x, y := KeyRow(keys[k], a), KeyRow(keys[k], b);
    assert forall c :: c in keys[k] ==> Get(x, c) == Get(y, c) != Nil;
    assert Conflict(keys, x, [y][0]);
    assert [x, y][1..] == [y];
  }

  lemma SingletonUnique(keys: Keys, row: Row)
    ensures UniqueOk(keys, [row])
  {
    assert [row][1..] == [];
  }

  /** Collisions included, the organization's rows and answers are independent of the
      others'. */
  ghost predicate Independent(keys: Keys, op: Op, org: string, s: seq<Row>) {
    && Own(Scoped(keys, op, org, s).0, org) == Scoped(keys, op, org, Own(s, org)).0
    && Scoped(keys, op, org, s).1 == Scoped(keys, op, org, Own(s, org)).1
  }

  /** That holds of every operation, organization and store if and only if every unique
      constraint covers the organization. */
  lemma IndependentExactly(keys: Keys)
    ensures (forall op: Op, org: string, s: seq<Row> :: HomeOp(op, org) && UniqueOk(keys, s) ==> Independent(keys, op, org, s))
            <==> PerTenant(keys)
  {
    if PerTenant(keys) {
      forall op: Op, org: string, s: seq<Row> | HomeOp(op, org) && UniqueOk(keys, s) ensures Independent(keys, op, org, s) {
        ScopedOnOwn(keys, op, org, s);
      }
    } else {
      var k :| 0 <= k < |keys| && ORG !in keys[k];
      assert A[0] != B[0];
      CollisionShows(keys, k, A, B);
      assert !Independent(keys, Create(KeyData(keys[k])), B, [KeyRow(keys[k], A)]);
    }
  }

  /** Then runs in which requests do collide are isolated as well. */
  lemma {:induction false} IsolatedPerTenant(keys: Keys, s: seq<Row>, t: Traffic, org: string)
    requires PerTenant(keys) && UniqueOk(keys, s) && AllHomeOps(t)
    ensures Own(After(keys, s, t), org) == After(keys, Own(s, org), Mine(t, org))
    ensures UniqueOk(keys, After(keys, s, t))
  {
    match t
    case Quiet =>
    case Next(earlier, who, op) =>
      var before := After(keys, s, earlier);
      IsolatedPerTenant(keys, s, earlier, org);
      ScopedOnOwn(keys, op, who, before);
      if who != org {
        OwnOfForeign(before, org, who);
        OwnOfForeign(After(keys, s, t), org, who);
      }
  }

  // ---------------------------------------------- the rewriting keeps the meaning

  predicate FieldsHold(fields: seq<(string, Cond)>, row: Row) {
    forall i :: 0 <= i < |fields| ==> CondHolds(fields[i].0, fields[i].1, row)
  }

  /** An object has no key twice. */
  ghost predicate DistinctNames(fields: seq<(string, Cond)>) {
    forall i, j :: 0 <= i < j < |fields| ==> fields[i].0 != fields[j].0
  }

  lemma FieldsCons(fields: seq<(string, Cond)>, row: Row)
    requires fields != []
    ensures FieldsHold(fields, row) <==> CondHolds(fields[0].0, fields[0].1, row) && FieldsHold(fields[1..], row)
  {
    if CondHolds(fields[0].0, fields[0].1, row) && FieldsHold(fields[1..], row) {
      forall i | 0 <= i < |fields| ensures CondHolds(fields[i].0, fields[i].1, row) {
        assert i > 0 ==> fields[i] == fields[1..][i - 1];
      }
    }
  }

  lemma MatchesFields(w: Where, row: Row)
    ensures Matches(w, row) <==> FieldsHold(w.fields, row) && Matches(w.(fields := []), row)
  {
  }

  /** What the conditions say of every column but one. */
  predicate OthersHold(fields: seq<(string, Cond)>, name: string, row: Row) {
    forall i :: 0 <= i < |fields| && fields[i].0 != name ==> CondHolds(fields[i].0, fields[i].1, row)
  }

  /** Setting a column replaces what was said of it and keeps what was said of others. */
  lemma {:induction false} SetFieldMeaning(fields: seq<(string, Cond)>, name: string, c: Cond, row: Row)
    requires DistinctNames(fields)
    ensures FieldsHold(SetField(fields, name, c), row) <==> CondHolds(name, c, row) && OthersHold(fields, name, row)
  {
    var r := SetField(fields, name, c);
    FieldsCons(r, row);
    if fields == [] {
      assert r[1..] == [];
    } else {
      if fields[0].0 == name {
        assert r[1..] == fields[1..];
        assert FieldsHold(fields[1..], row) <==> OthersHold(fields[1..], name, row) by {
          forall i | 0 <= i < |fields[1..]| ensures fields[1..][i].0 != name { assert fields[1..][i] == fields[i + 1]; }
        }
      } else {
        assert r[1..] == SetField(fields[1..], name, c);
        SetFieldMeaning(fields[1..], name, c, row);
      }
    }
  }

  /** The condition accepts this organization. A compound key is never the organization
      column itself. */
  predicate Accepts(c: Cond, org: string) {
    match c
    case Is(v) => v == Text(org)
    case Test(p) => p(Text(org))
    case Compound(_) => false
  }

  /** Whatever the selector says of the organization is true of this one. */
  predicate NamesOwn(w: Where, org: string) {
    forall i :: 0 <= i < |w.fields| && w.fields[i].0 == ORG ==> Accepts(w.fields[i].1, org)
  }

  /** An object of the client: distinct keys, and no compound key in the place of the
      organization. */
  ghost predicate IsSelector(w: Where) {
    DistinctNames(w.fields) && forall i :: 0 <= i < |w.fields| && w.fields[i].0 == ORG ==> !w.fields[i].1.Compound?
  }

  /** The merged selector takes the organization's rows that everything else in it selects. */
  lemma MergedSelects(w: Where, org: string, row: Row)
    requires IsSelector(w)
    ensures Matches(MergeOrgWhereUnique(w, org), row) <==>
            InOrg(row, org) && OthersHold(w.fields, ORG, row) && Matches(w.(fields := []), row)
  {
    var merged := MergeOrgWhereUnique(w, org);
    SetFieldMeaning(w.fields, ORG, Is(Text(org)), row);
    MatchesFields(merged, row);
    assert merged.(fields := []) == w.(fields := []);
  }

  lemma UniqueMeaning(w: Where, org: string, row: Row)
    requires IsSelector(w) && NamesOwn(w, org)
    ensures Matches(MergeOrgWhereUnique(w, org), row) <==> InOrg(row, org) && Matches(w, row)
  {
    MergedSelects(w, org, row);
    MatchesFields(w, row);
    if InOrg(row, org) && OthersHold(w.fields, ORG, row) {
      forall i | 0 <= i < |w.fields| ensures CondHolds(w.fields[i].0, w.fields[i].1, row) {
        if w.fields[i].0 == ORG { assert Accepts(w.fields[i].1, org); }
      }
    }
  }

  /** The organization beside a unique selector adds exactly one condition if and only if
      what the selector itself says of the organization is true of this one, or it selects
      nothing in this organization anyway. */
  lemma UniqueMeaningExactly(w: Where, org: string)
    requires IsSelector(w)
    ensures (forall row :: Matches(MergeOrgWhereUnique(w, org), row) <==> InOrg(row, org) && Matches(w, row))
            <==> NamesOwn(w, org) || forall row :: !Matches(MergeOrgWhereUnique(w, org), row)
  {
    if NamesOwn(w, org) {
      forall row ensures Matches(MergeOrgWhereUnique(w, org), row) <==> InOrg(row, org) && Matches(w, row) {
        UniqueMeaning(w, org, row);
      }
    } else {
      var i :| 0 <= i < |w.fields| && w.fields[i].0 == ORG && !Accepts(w.fields[i].1, org);
      forall row ensures InOrg(row, org) && Matches(w, row) ==> CondHolds(w.fields[i].0, w.fields[i].1, row) {
      }
    }
  }

  // ------------------------------------------------- taking a unique selector apart

  function PartEntries(parts: seq<(string, Val)>): seq<(string, Cond)> {
    if parts == [] then [] else [(parts[0].0, Is(parts[0].1))] + PartEntries(parts[1..])
  }

  function EntriesOf(name: string, c: Cond): seq<(string, Cond)> {
    if c.Compound? then PartEntries(c.parts) else [(name, c)]
  }

  /** What a selector says, column by column, with compound keys taken apart. */
  function Entries(fields: seq<(string, Cond)>): seq<(string, Cond)> {
    if fields == [] then [] else EntriesOf(fields[0].0, fields[0].1) + Entries(fields[1..])
  }

  function Assigned(out: seq<(string, Cond)>, entries: seq<(string, Cond)>): seq<(string, Cond)>
    decreases |entries|
  {
    if entries == [] then out else Assigned(SetField(out, entries[0].0, entries[0].1), entries[1..])
  }

  lemma {:induction false} AssignedAppend(out: seq<(string, Cond)>, a: seq<(string, Cond)>, b: seq<(string, Cond)>)
    ensures Assigned(out, a + b) == Assigned(Assigned(out, a), b)
    decreases |a|
  {
    if a == [] {
      assert a + b == b;
    } else {
      assert (a + b)[0] == a[0] && (a + b)[1..] == a[1..] + b;
      AssignedAppend(SetField(out, a[0].0, a[0].1), a[1..], b);
    }
  }

  lemma {:induction false} PartsAssigned(out: seq<(string, Cond)>, parts: seq<(string, Val)>)
    ensures AssignParts(out, parts) == Assigned(out, PartEntries(parts))
    decreases |parts|
  {
    if parts != [] {
      PartsAssigned(SetField(out, parts[0].0, Is(parts[0].1)), parts[1..]);
      assert PartEntries(parts)[1..] == PartEntries(parts[1..]);
    }
  }

  lemma {:induction false} FlattenAssigned(out: seq<(string, Cond)>, fields: seq<(string, Cond)>)
    ensures FlattenFields(out, fields) == Assigned(out, Entries(fields))
    decreases |fields|
  {
    if fields != [] {
      var (name, c) := fields[0];
      if c.Compound? {
        PartsAssigned(out, c.parts);
      } else {
        assert [(name, c)][1..] == [];
      }
      AssignedAppend(out, EntriesOf(name, c), Entries(fields[1..]));
      FlattenAssigned(Spread(out, name, c), fields[1..]);
    }
  }

  lemma {:induction false} PartEntriesMean(parts: seq<(string, Val)>, row: Row)
    ensures FieldsHold(PartEntries(parts), row) <==> CondHolds("", Compound(parts), row)
  {
    if parts != [] {
      PartEntriesMean(parts[1..], row);
      FieldsCons(PartEntries(parts), row);
      assert PartEntries(parts)[1..] == PartEntries(parts[1..]);
      if CondHolds("", Compound(parts[1..]), row) && Get(row, parts[0].0) == parts[0].1 {
        forall i | 0 <= i < |parts| ensures Get(row, parts[i].0) == parts[i].1 {
          assert i > 0 ==> parts[i] == parts[1..][i - 1];
        }
      }
    }
  }

  lemma {:induction false} EntriesMean(fields: seq<(string, Cond)>, row: Row)
    ensures FieldsHold(Entries(fields), row) <==> FieldsHold(fields, row)
  {
    if fields != [] {
      var (name, c) := fields[0];
      EntriesMean(fields[1..], row);
      FieldsCons(fields, row);
      if c.Compound? {
        PartEntriesMean(c.parts, row);
      } else {
        FieldsCons([(name, c)], row);
        assert [(name, c)][1..] == [];
      }
      FieldsAppend(EntriesOf(name, c), Entries(fields[1..]), row);
    }
  }

  lemma FieldsAppend(a: seq<(string, Cond)>, b: seq<(string, Cond)>, row: Row)
    ensures FieldsHold(a + b, row) <==> FieldsHold(a, row) && FieldsHold(b, row)
  {
    if FieldsHold(a + b, row) {
      forall i | 0 <= i < |a| ensures CondHolds(a[i].0, a[i].1, row) { assert (a + b)[i] == a[i]; }
      forall i | 0 <= i < |b| ensures CondHolds(b[i].0, b[i].1, row) { assert (a + b)[|a| + i] == b[i]; }
    }
  }

  lemma {:induction false} SetNarrowsLess(fields: seq<(string, Cond)>, name: string, c: Cond, row: Row)
    requires FieldsHold(fields, row) && CondHolds(name, c, row)
    ensures FieldsHold(SetField(fields, name, c), row)
  {
    var r := SetField(fields, name, c);
    FieldsCons(r, row);
    if fields == [] {
      assert r[1..] == [];
    } else {
      FieldsCons(fields, row);
      if fields[0].0 == name {
        assert r[1..] == fields[1..];
      } else {
        SetNarrowsLess(fields[1..], name, c, row);
        assert r[1..] == SetField(fields[1..], name, c);
      }
    }
  }

  lemma {:induction false} AssignedNarrowsLess(out: seq<(string, Cond)>, entries: seq<(string, Cond)>, row: Row)
    requires FieldsHold(out, row) && FieldsHold(entries, row)
    ensures FieldsHold(Assigned(out, entries), row)
    decreases |entries|
  {
    if entries != [] {
      FieldsCons(entries, row);
      SetNarrowsLess(out, entries[0].0, entries[0].1, row);
      AssignedNarrowsLess(SetField(out, entries[0].0, entries[0].1), entries[1..], row);
    }
  }

  /** Taking a selector apart never loses a row: what it selects, whatever conditions it
      is made of, the flat selector selects too. */
  lemma FlattenNeverNarrows(w: Where, row: Row)
    requires Matches(w, row)
    ensures Matches(FlattenUniqueWhere(w), row)
  {
    MatchesFields(w, row);
    EntriesMean(w.fields, row);
    AssignedNarrowsLess([], Entries(w.fields), row);
    FlattenAssigned([], w.fields);
    var flat := FlattenUniqueWhere(w);
    MatchesFields(flat, row);
    assert flat.(fields := []) == w.(fields := []);
  }

  /** A column that the selector speaks of twice is told the same both times. */
  ghost predicate Consistent(fields: seq<(string, Cond)>) {
    var es := Entries(fields);
    forall i, j :: 0 <= i < j < |es| && es[i].0 == es[j].0 ==> es[i].1 == es[j].1
  }

  lemma {:induction false} SetKeeps(fields: seq<(string, Cond)>, name: string, c: Cond, m: string, d: Cond)
    requires (m == name && d == c) || ((m, d) in fields && m != name)
    ensures (m, d) in SetField(fields, name, c)
  {
    var r := SetField(fields, name, c);
    if fields == [] || fields[0].0 == name {
      assert r[0] == (name, c);
      if m != name {
        assert (m, d) in fields[1..];
        assert r == [(name, c)] + fields[1..];
      }
    } else if fields[0] != (m, d) {
      assert m != name ==> (m, d) in fields[1..];
      SetKeeps(fields[1..], name, c, m, d);
      assert r == [fields[0]] + SetField(fields[1..], name, c);
    } else {
      assert r[0] == (m, d);
    }
  }

  /** An entry that no other contradicts is still there at the end. */
  lemma {:induction false} AssignedKeeps(out: seq<(string, Cond)>, entries: seq<(string, Cond)>, m: string, d: Cond)
    requires (m, d) in out || (m, d) in entries
    requires forall i :: 0 <= i < |entries| && entries[i].0 == m ==> entries[i].1 == d
    ensures (m, d) in Assigned(out, entries)
    decreases |entries|
  {
    if entries != [] {
      var next := SetField(out, entries[0].0, entries[0].1);
      assert forall i :: 0 <= i < |entries[1..]| ==> entries[1..][i] == entries[i + 1];
      if entries[0].0 == m || (m, d) in out {
        SetKeeps(out, entries[0].0, entries[0].1, m, d);
      } else {
        assert (m, d) in entries[1..];
      }
      AssignedKeeps(next, entries[1..], m, d);
    }
  }

  /** A selector that never contradicts itself keeps its meaning when it is taken apart. */
  lemma FlattenMeaning(w: Where, row: Row)
    requires Consistent(w.fields)
    ensures Matches(FlattenUniqueWhere(w), row) <==> Matches(w, row)
  {
    var flat, es := FlattenUniqueWhere(w), Entries(w.fields);
    FlattenAssigned([], w.fields);
    MatchesFields(flat, row);
    MatchesFields(w, row);
    assert flat.(fields := []) == w.(fields := []);
    EntriesMean(w.fields, row);
    if Matches(flat, row) {
      forall i | 0 <= i < |es| ensures CondHolds(es[i].0, es[i].1, row) {
        AssignedKeeps([], es, es[i].0, es[i].1);
        var j :| 0 <= j < |flat.fields| && flat.fields[j] == (es[i].0, es[i].1);
        assert CondHolds(flat.fields[j].0, flat.fields[j].1, row);
      }
    }
    if Matches(w, row) { FlattenNeverNarrows(w, row); }
  }

  /** A selector of equalities only, compound keys included. */
  predicate Plain(w: Where) {
    && (forall i :: 0 <= i < |w.fields| ==> !w.fields[i].1.Test?)
    && w.ands.Absent? && w.ors.Absent? && w.nots.Absent?
  }

  predicate Equalities(fields: seq<(string, Cond)>) {
    forall i :: 0 <= i < |fields| ==> fields[i].1.Is?
  }

  lemma {:induction false} PartEqualities(parts: seq<(string, Val)>)
    ensures Equalities(PartEntries(parts))
  {
    if parts != [] { PartEqualities(parts[1..]); }
  }

  lemma {:induction false} PlainEntries(fields: seq<(string, Cond)>)
    requires forall i :: 0 <= i < |fields| ==> !fields[i].1.Test?
    ensures Equalities(Entries(fields))
  {
    if fields != [] {
      assert forall i :: 0 <= i < |fields[1..]| ==> fields[1..][i] == fields[i + 1];
      PlainEntries(fields[1..]);
      if fields[0].1.Compound? { PartEqualities(fields[0].1.parts); }
    }
  }

  lemma {:induction false} SetShape(fields: seq<(string, Cond)>, name: string, c: Cond)
    requires DistinctNames(fields)
    ensures DistinctNames(SetField(fields, name, c))
    ensures forall i :: 0 <= i < |SetField(fields, name, c)| ==>
              SetField(fields, name, c)[i] == (name, c) || SetField(fields, name, c)[i] in fields
  {
    if fields != [] && fields[0].0 != name {
      assert forall i :: 0 <= i < |fields[1..]| ==> fields[1..][i] == fields[i + 1];
      SetShape(fields[1..], name, c);
      var rest := SetField(fields[1..], name, c);
      forall i | 0 <= i < |rest| ensures rest[i].0 != fields[0].0 {
        if rest[i] in fields[1..] {
          var j :| 0 <= j < |fields[1..]| && fields[1..][j] == rest[i];
          assert fields[0].0 != fields[j + 1].0;
        }
      }
    }
  }

  lemma {:induction false} AssignedShape(out: seq<(string, Cond)>, entries: seq<(string, Cond)>)
    requires DistinctNames(out) && Equalities(out) && Equalities(entries)
    ensures DistinctNames(Assigned(out, entries)) && Equalities(Assigned(out, entries))
    decreases |entries|
  {
    if entries != [] {
      SetShape(out, entries[0].0, entries[0].1);
      assert forall i :: 0 <= i < |entries[1..]| ==> entries[1..][i] == entries[i + 1];
      AssignedShape(SetField(out, entries[0].0, entries[0].1), entries[1..]);
    }
  }

  /** The row that equalities on distinct columns describe. */
  function RowOf(fields: seq<(string, Cond)>): Row {
    if fields == [] then map[]
    else if fields[0].1.Is? then RowOf(fields[1..])[fields[0].0 := fields[0].1.v]
    else RowOf(fields[1..])
  }

  lemma {:induction false} RowOfHolds(fields: seq<(string, Cond)>)
    requires DistinctNames(fields) && Equalities(fields)
    ensures FieldsHold(fields, RowOf(fields))
  {
    if fields != [] {
      var rest := fields[1..];
      assert forall i :: 0 <= i < |rest| ==> rest[i] == fields[i + 1];
      RowOfHolds(rest);
      forall i | 0 <= i < |rest| ensures CondHolds(rest[i].0, rest[i].1, RowOf(fields)) {
        assert fields[0].0 != fields[i + 1].0;
        assert CondHolds(rest[i].0, rest[i].1, RowOf(rest));
      }
      FieldsCons(fields, RowOf(fields));
    }
  }

  /** A flat selector of equalities always describes some row: the last value given for
      each column. */
  lemma FlatSelectsSome(w: Where)
    requires Plain(w)
    ensures Matches(FlattenUniqueWhere(w), RowOf(FlattenUniqueWhere(w).fields))
  {
    FlattenAssigned([], w.fields);
    PlainEntries(w.fields);
    AssignedShape([], Entries(w.fields));
    RowOfHolds(FlattenUniqueWhere(w).fields);
  }

  /** Taking a selector of equalities apart keeps its meaning if and only if it gives no
      column two different values. */
  lemma FlattenExactly(w: Where)
    requires Plain(w)
    ensures (forall row :: Matches(FlattenUniqueWhere(w), row) <==> Matches(w, row)) <==> Consistent(w.fields)
  {
    if Consistent(w.fields) {
      forall row ensures Matches(FlattenUniqueWhere(w), row) <==> Matches(w, row) { FlattenMeaning(w, row); }
    } else {
      var es := Entries(w.fields);
      var i, j :| 0 <= i < j < |es| && es[i].0 == es[j].0 && es[i].1 != es[j].1;
      var row := RowOf(FlattenUniqueWhere(w).fields);
      FlatSelectsSome(w);
      PlainEntries(w.fields);
      EntriesMean(w.fields, row);
      MatchesFields(w, row);
      assert !(CondHolds(es[i].0, es[i].1, row) && CondHolds(es[j].0, es[j].1, row));
    }
  }

  /** For a selector of equalities that can select something once the organization is
      set, the condition is exactly that it names no other organization. */
  lemma UniqueMeaningPlain(w: Where, org: string)
    requires IsSelector(w) && Plain(w) && Consistent(MergeOrgWhereUnique(w, org).fields)
    ensures (forall row :: Matches(MergeOrgWhereUnique(w, org), row) <==> InOrg(row, org) && Matches(w, row)) <==> NamesOwn(w, org)
  {
    var merged := MergeOrgWhereUnique(w, org);
    SetShape(w.fields, ORG, Is(Text(org)));
    assert Plain(merged) by {
      forall i | 0 <= i < |merged.fields| ensures !merged.fields[i].1.Test? {
        assert merged.fields[i] == (ORG, Is(Text(org))) || merged.fields[i] in w.fields;
      }
    }
    FlatSelectsSome(merged);
    FlattenMeaning(merged, RowOf(FlattenUniqueWhere(merged).fields));
    UniqueMeaningExactly(w, org);
  }

  /** The filters pick the same rows of `s`. */
  predicate SameOn(s: seq<Row>, w: Where, v: Where) {
    forall i :: 0 <= i < |s| ==> (Matches(w, s[i]) <==> Matches(v, s[i]))
  }

  lemma {:induction false} SameFilters(s: seq<Row>, w: Where, v: Where, d: Data)
    requires SameOn(s, w, v)
    ensures Filter(s, w) == Filter(s, v) && Without(s, w) == Without(s, v) && DropFirst(s, w) == DropFirst(s, v)
    ensures WriteAll(s, w, d) == WriteAll(s, v, d) && WriteFirst(s, w, d) == WriteFirst(s, v, d)
  {
    if s != [] {
      assert SameOn(s[1..], w, v) by { assert forall i :: 0 <= i < |s[1..]| ==> s[1..][i] == s[i + 1]; }
      SameFilters(s[1..], w, v, d);
    }
  }

  lemma {:induction false} OwnRows(s: seq<Row>, org: string, i: nat)
    requires i < |Own(s, org)|
    ensures InOrg(Own(s, org)[i], org)
  {
    if InOrg(s[0], org) {
      if i > 0 { OwnRows(s[1..], org, i - 1); }
    } else {
      OwnRows(s[1..], org, i);
    }
  }

  /** The selector can be scoped without changing what it selects. */
  ghost predicate Selects(op: Op, org: string) {
    match op
    case Upsert(w, _, _) => IsSelector(w) && NamesOwn(w, org)
    case Update(w, _) => IsSelector(w) && NamesOwn(w, org)
    case Delete(w) => IsSelector(w) && NamesOwn(w, org)
    case FindUnique(w) => Consistent(w.fields)
    case FindUniqueOrThrow(w) => Consistent(w.fields)
    case _ => true
  }

  /** The operation as asked, except that the data of a create carries the organization. */
  function Homed(op: Op, org: string): Op {
    match op
    case Create(d) => Create(Stamped(d, org))
    case CreateMany(ds) => CreateMany(StampedAll(ds, org))
    case CreateManyAndReturn(ds) => CreateManyAndReturn(StampedAll(ds, org))
    case Upsert(w, c, u) => Upsert(w, Stamped(c, org), u)
    case _ => op
  }

  lemma UniqueSame(s: seq<Row>, w: Where, org: string)
    requires IsSelector(w) && NamesOwn(w, org)
    ensures SameOn(Own(s, org), MergeOrgWhereUnique(w, org), w)
  {
    forall i | 0 <= i < |Own(s, org)|
      ensures Matches(MergeOrgWhereUnique(w, org), Own(s, org)[i]) <==> Matches(w, Own(s, org)[i])
    {
      OwnRows(s, org, i);
      UniqueMeaning(w, org, Own(s, org)[i]);
    }
  }

  lemma FlatSame(s: seq<Row>, w: Where, org: string)
    requires Consistent(w.fields)
    ensures SameOn(Own(s, org), MergeOrgWhere(Some(FlattenUniqueWhere(w)), org), w)
  {
    forall i | 0 <= i < |Own(s, org)|
      ensures Matches(MergeOrgWhere(Some(FlattenUniqueWhere(w)), org), Own(s, org)[i]) <==> Matches(w, Own(s, org)[i])
    {
      OwnRows(s, org, i);
      FlattenMeaning(w, Own(s, org)[i]);
    }
  }

  lemma FilterSame(s: seq<Row>, w: Option<Where>, org: string)
    ensures SameOn(Own(s, org), MergeOrgWhere(w, org), Given(w))
  {
    forall i | 0 <= i < |Own(s, org)|
      ensures Matches(MergeOrgWhere(w, org), Own(s, org)[i]) <==> Matches(Given(w), Own(s, org)[i])
    {
      OwnRows(s, org, i);
    }
  }

  const NOTHING := Data(map[], None)

  lemma WriteKeepsMeaning(op: Op, org: string, s: seq<Row>)
    requires !Refused(op, org) && Selects(op, org) && (op.Upsert? || op.Update? || op.Delete?)
    ensures Sent(op, org).Some? && Attempt(Sent(op, org).value, Own(s, org)) == Attempt(Homed(op, org), Own(s, org))
  {
    var own := Own(s, org);
    DataSent(op, org);
    match op
    case Upsert(w, _, u) => UniqueSame(s, w, org); SameFilters(own, MergeOrgWhereUnique(w, org), w, u);
    case Update(w, d) => UniqueSame(s, w, org); SameFilters(own, MergeOrgWhereUnique(w, org), w, d);
    case Delete(w) => UniqueSame(s, w, org); SameFilters(own, MergeOrgWhereUnique(w, org), w, NOTHING);
  }

  lemma FindUniqueKeepsMeaning(op: Op, org: string, s: seq<Row>)
    requires Selects(op, org) && (op.FindUnique? || op.FindUniqueOrThrow?)
    ensures Sent(op, org).Some? && Attempt(Sent(op, org).value, Own(s, org)) == Attempt(op, Own(s, org))
  {
    FlatSame(s, op.target, org);
    SameFilters(Own(s, org), MergeOrgWhere(Some(FlattenUniqueWhere(op.target)), org), op.target, NOTHING);
  }

  /** On the organization's own rows the operation that is sent does what was asked. */
  lemma SentKeepsMeaning(op: Op, org: string, s: seq<Row>)
    requires !Refused(op, org) && Selects(op, org)
    ensures Sent(op, org).Some? && Attempt(Sent(op, org).value, Own(s, org)) == Attempt(Homed(op, org), Own(s, org))
  {
    match op
    case Create(_) => DataSent(op, org);
    case CreateMany(_) => DataSent(op, org);
    case CreateManyAndReturn(_) => DataSent(op, org);
    case Upsert(_, _, _) => WriteKeepsMeaning(op, org, s);
    case Update(_, _) => WriteKeepsMeaning(op, org, s);
    case Delete(_) => WriteKeepsMeaning(op, org, s);
    case FindUnique(_) => FindUniqueKeepsMeaning(op, org, s);
    case FindUniqueOrThrow(_) => FindUniqueKeepsMeaning(op, org, s);
    case UpdateMany(w, d) => FilterSame(s, w, org); SameFilters(Own(s, org), MergeOrgWhere(w, org), Given(w), d);
    case _ =>
      FilterSame(s, op.filter, org);
      SameFilters(Own(s, org), MergeOrgWhere(op.filter, org), Given(op.filter), NOTHING);
  }

  /** A scoped operation that reports no collision is the operation that was asked for,
      on a database that holds this organization's rows and no others. */
  lemma ScopeMeaning(keys: Keys, op: Op, org: string, s: seq<Row>)
    requires HomeOp(op, org) && Selects(op, org) && !Refused(op, org)
    requires Scoped(keys, op, org, s).1 != UniqueViolation
    ensures Scoped(keys, op, org, s).1 == Exec(keys, Homed(op, org), Own(s, org)).1
    ensures Own(Scoped(keys, op, org, s).0, org) == Exec(keys, Homed(op, org), Own(s, org)).0
  {
    NoCollisionOnOwn(keys, op, org, s);
    SentKeepsMeaning(op, org, s);
  }

  // ------------------------------------------------- where the conditions are needed

  const A := "a"
  const B := "b"
  const ALICE: Row := map[ORG := Text(A), "id" := Number(1)]
  const BY_ID := Where([("id", Is(Number(1)))], Absent, Absent, Absent)
  const TO_B := Data(map[ORG := To(Text(B))], None)
  const RELATION_B := Data(map[], Some(B))

  /** The data of an `updateMany` is not looked at: it can move rows to another
      organization. The same data in an `update` is rejected. */
  lemma UpdateManyUnchecked()
    ensures Foreign(Scoped([], UpdateMany(None, TO_B), A, [ALICE]).0, A) != Foreign([ALICE], A)
    ensures Scoped([], Update(BY_ID, TO_B), A, [ALICE]).1 == ScopeError
  {
    assert A[0] != B[0];
    ForeignUnchangedExactly([], UpdateMany(None, TO_B), A, [ALICE]);
    assert Matches(MergeOrgWhere(None, A), ALICE);
    assert Filter([ALICE], MergeOrgWhere(None, A))[0] == ALICE;
    assert ValidUpdate(TO_B);
    SingletonUnique([], Written(ALICE, TO_B));
    assert WriteAll([ALICE], MergeOrgWhere(None, A), TO_B) == [Written(ALICE, TO_B)];
    assert Succeeded(Scoped([], UpdateMany(None, TO_B), A, [ALICE]).1);
    assert HomesElsewhere(TO_B, A);
  }

  /** Nor is the relation form of an update. */
  lemma RelationUnchecked()
    ensures Foreign(Scoped([], Update(BY_ID, RELATION_B), A, [ALICE]).0, A) != Foreign([ALICE], A)
  {
    assert A[0] != B[0];
    ForeignUnchangedExactly([], Update(BY_ID, RELATION_B), A, [ALICE]);
    UniqueMeaning(BY_ID, A, ALICE);
    assert Filter([ALICE], MergeOrgWhereUnique(BY_ID, A))[0] == ALICE;
    SingletonUnique([], Written(ALICE, RELATION_B));
    assert WriteFirst([ALICE], MergeOrgWhereUnique(BY_ID, A), RELATION_B) == [Written(ALICE, RELATION_B)];
    assert Succeeded(Scoped([], Update(BY_ID, RELATION_B), A, [ALICE]).1);
  }

  /** In the scope of one organization a selector that names another is overwritten: it
      then takes a row of this one that it did not select. */
  lemma ForeignSelectorOverwritten()
    ensures var w := Where([("id", Is(Number(1))), (ORG, Is(Text(B)))], Absent, Absent, Absent);
            IsSelector(w) && !Matches(w, ALICE) && Matches(MergeOrgWhereUnique(w, A), ALICE)
  {
    var w := Where([("id", Is(Number(1))), (ORG, Is(Text(B)))], Absent, Absent, Absent);
    assert A[0] != B[0];
    assert ORG[0] != "id"[0];
    assert !CondHolds(w.fields[1].0, w.fields[1].1, ALICE);
    assert CondHolds(w.fields[0].0, w.fields[0].1, ALICE);
    MergedSelects(w, A, ALICE);
  }

  /** A selector that speaks of a column twice is widened when it is taken apart. */
  lemma RepeatedColumnWidens(row: Row)
    requires row == map["a" := Number(2)]
    ensures var w := Where([("a_b", Compound([("a", Number(1))])), ("a", Is(Number(2)))], Absent, Absent, Absent);
            Matches(FlattenUniqueWhere(w), row) && !Matches(w, row)
  {
    var parts: seq<(string, Val)> := [("a", Number(1))];
    var w := Where([("a_b", Compound(parts)), ("a", Is(Number(2)))], Absent, Absent, Absent);
    assert Get(row, parts[0].0) != parts[0].1;
    assert !CondHolds(w.fields[0].0, w.fields[0].1, row);
    assert AssignParts([], parts) == [("a", Is(Number(1)))];
    assert w.fields[1..] == [("a", Is(Number(2)))];
    assert FlattenFields([("a", Is(Number(1)))], w.fields[1..]) == [("a", Is(Number(2)))];
    assert FlattenUniqueWhere(w).fields == [("a", Is(Number(2)))];
  }
}
