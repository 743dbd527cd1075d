/** The per-request session check (src/lib/auth.ts:134-260, src/lib/auth/session-state.ts,
    src/lib/auth/token-revocation.ts, src/lib/auth/session-mint.ts): every request
    re-derives the state of its token from the account, and a token that was revoked
    never comes back. */
module Sessions {
  import opened Options

  datatype State = Active | PendingPasswordChange | Revoked

  /** The `state` claim of a token: absent, one of the states, or anything else. */
  datatype StateClaim = Unset | Claimed(state: State) | Garbled(text: string)

  datatype Account = Account(sessionVersion: int, mustChangePassword: bool, passwordChangedAt: Option<int>)

  datatype Membership = Membership(organizationId: string, role: string)

  /** What the lookup reads besides the account. */
  datatype Profile = Profile(memberships: seq<Membership>, operatorRole: Option<string>)

  datatype Lookup = Failed | Read(account: Option<Account>, profile: Profile)

  datatype Claims = Claims(
    userId: Option<string>, sessionVersion: Option<int>, iat: Option<int>, state: StateClaim, revoked: bool,
    isA2rStaff: bool, operatorRole: Option<string>, mustChangePassword: bool, memberships: seq<Membership>)

  const BLANK := Claims(None, None, None, Unset, false, false, None, false, [])

  const DEAD := BLANK.(revoked := true, state := Claimed(Revoked))

  predicate HasUser(userId: Option<string>) {
    userId.Some? && userId.value != ""
  }

  // ------------------------------------------------------------ state derivation

  /** Seconds against milliseconds: a token of the same second survives. */
  predicate Predates(iat: Option<int>, passwordChangedAt: Option<int>) {
    passwordChangedAt.Some? && iat.Some? && iat.value < passwordChangedAt.value / 1000
  }

  function Version(claim: Option<int>): int {
    if claim.Some? then claim.value else 0
  }

  function DeriveSessionState(c: Claims, account: Option<Account>, lookupFailed: bool): State {
    if lookupFailed then Revoked
    else if !HasUser(c.userId) then Revoked
    else if c.revoked then Revoked
    else if account.None? then Revoked
    else if Version(c.sessionVersion) != account.value.sessionVersion then Revoked
    else if Predates(c.iat, account.value.passwordChangedAt) then Revoked
    else if account.value.mustChangePassword then PendingPasswordChange
    else Active
  }

  function Transitions(from: State): set<State> {
    match from
    case Active => {PendingPasswordChange, Revoked}
    case PendingPasswordChange => {Active, Revoked}
    case Revoked => {}
  }

  predicate IsValidTransition(from: State, to: State) {
    from == to || to in Transitions(from)
  }

  // ------------------------------------------------------------ the jwt callback

  /** The claims the callback returns; nothing when it throws, which it does on a state
      claim that is not a state at all. */
  function JwtClaims(c: Claims, user: Option<string>, lookup: Lookup): Option<Claims> {
    var named := if user.Some? then c.(userId := user) else c;
    if !HasUser(named.userId) then Some(named)
    else
      var account := if lookup.Read? then lookup.account else None;
      var pinned := if user.Some? && account.Some? then named.(sessionVersion := Some(account.value.sessionVersion)) else named;
      if c.state.Garbled? then None
      else
        var prior := if c.state.Claimed? then c.state.state else Active;
        var derived := DeriveSessionState(pinned, account, lookup.Failed?);
        var next := if IsValidTransition(prior, derived) then derived else Revoked;
        if next == Revoked then Some(DEAD)
        else Some(Hydrated(pinned, account.value, lookup.profile, next))
  }

  function Hydrated(c: Claims, account: Account, p: Profile, next: State): Claims {
    c.(sessionVersion := if c.sessionVersion.None? then Some(account.sessionVersion) else c.sessionVersion,
       state := Claimed(next), isA2rStaff := p.operatorRole.Some?, operatorRole := p.operatorRole,
       mustChangePassword := next == PendingPasswordChange, memberships := p.memberships)
  }

  /** The token object that the callback updates claim by claim. */
  class Token {
    var userId: Option<string>
    var sessionVersion: Option<int>
    var iat: Option<int>
    var state: StateClaim
    var revoked: bool
    var isA2rStaff: bool
    var operatorRole: Option<string>
    var mustChangePassword: bool
    var memberships: seq<Membership>

    constructor (c: Claims)
      ensures Value() == c
    {
      userId, sessionVersion, iat, state, revoked := c.userId, c.sessionVersion, c.iat, c.state, c.revoked;
      isA2rStaff, operatorRole := c.isA2rStaff, c.operatorRole;
      mustChangePassword, memberships := c.mustChangePassword, c.memberships;
    }

    function Value(): Claims
      reads this
    {
      Claims(userId, sessionVersion, iat, state, revoked, isA2rStaff, operatorRole, mustChangePassword, memberships)
    }
  }

  method Jwt(token: Token, user: Option<string>, lookup: Lookup) returns (threw: bool, r: Token)
    modifies token
    ensures threw <==> JwtClaims(old(token.Value()), user, lookup).None?
    ensures !threw ==> r.Value() == JwtClaims(old(token.Value()), user, lookup).value
    ensures r == token || fresh(r)
  {
    threw, r := false, token;
    if user.Some? {
      token.userId := user;
    }
    if !HasUser(token.userId) { return; }
    var account: Option<Account> := None;
    var mappedMemberships: seq<Membership> := [];
    var isStaff, operatorRole, lookupFailed := false, None, false;
    match lookup {
      case Read(acct, profile) =>
        account := acct;
        operatorRole := profile.operatorRole;
        isStaff := profile.operatorRole.Some?;
        mappedMemberships := profile.memberships;
      case Failed =>
        lookupFailed := true;
    }
    if user.Some? && !lookupFailed && account.Some? {
      token.sessionVersion := Some(account.value.sessionVersion);
    }
    if token.state.Garbled? {
      threw := true;
      return;
    }
    var priorState := if token.state.Claimed? then token.state.state else Active;
    var nextState := DeriveSessionState(token.Value(), account, lookupFailed);
    if !IsValidTransition(priorState, nextState) {
      nextState := Revoked;
    }
    if nextState == Revoked {
      r := new Token(DEAD);
      return;
    }
    if token.sessionVersion.None? && account.Some? {
      token.sessionVersion := Some(account.value.sessionVersion);
    }
    token.state := Claimed(nextState);
    token.isA2rStaff := isStaff;
    token.operatorRole := operatorRole;
    token.mustChangePassword := nextState == PendingPasswordChange;
    token.memberships := mappedMemberships;
  }

  // -------------------------------------------------------- the session callback

  datatype SessionUser = SessionUser(
    id: string, isA2rStaff: bool, operatorRole: Option<string>, mustChangePassword: bool)

  class Session {
    var user: Option<SessionUser>
    var memberships: seq<Membership>
    var sessionVersion: Option<int>

    constructor (user: Option<SessionUser>, memberships: seq<Membership>, sessionVersion: Option<int>)
      ensures this.user == user && this.memberships == memberships && this.sessionVersion == sessionVersion
    {
      this.user, this.memberships, this.sessionVersion := user, memberships, sessionVersion;
    }
  }

  /** A token that still stands for its user. */
  predicate Live(c: Claims) {
    HasUser(c.userId) && !c.revoked && c.state != Claimed(Revoked)
  }

  /** A request has a user if and only if its token is live, and then it is the user of
      the token. */
  method SessionCallback(session: Session, token: Claims) returns (r: Session)
    modifies session
    ensures r.user.Some? <==> old(session.user).Some? && Live(token)
    ensures r.user.Some? ==> && r.user.value.id == token.userId.value
                             && r.user.value.isA2rStaff == token.isA2rStaff
                             && r.user.value.operatorRole == token.operatorRole
                             && r.user.value.mustChangePassword == token.mustChangePassword
                             && r.memberships == token.memberships && r.sessionVersion == token.sessionVersion
    ensures r.user.None? ==> r.memberships == old(session.memberships) && r.sessionVersion == old(session.sessionVersion)
  {
    if token.revoked || token.state == Claimed(Revoked) || !HasUser(token.userId) {
      r := new Session(None, session.memberships, session.sessionVersion);
      return;
    }
    r := session;
    if session.user.Some? {
      session.user := Some(SessionUser(token.userId.value, token.isA2rStaff, token.operatorRole, token.mustChangePassword));
      session.memberships := token.memberships;
      session.sessionVersion := token.sessionVersion;
    }
  }

  // ------------------------------------------------------------- one refresh

  /** The refresh of a token ends with a session that has a user. */
  predicate Serves(r: Option<Claims>) {
    r.Some? && Live(r.value)
  }

  /** What the claims let their holder do is what this lookup read: staff if and only if
      an operator role was read, that role, those memberships, and a password to be
      changed first if and only if the account says so. */
  predicate Privileged(c: Claims, account: Account, p: Profile) {
    && (c.isA2rStaff <==> p.operatorRole.Some?)
    && c.operatorRole == p.operatorRole
    && c.memberships == p.memberships
    && (c.mustChangePassword <==> account.mustChangePassword)
    && c.state == Claimed(if account.mustChangePassword then PendingPasswordChange else Active)
  }

  /** A refresh serves if and only if the token is live, the lookup came back with the
      account, the token carries the account's version and is not older than its
      password; the refreshed token then carries the same user and version, and the
      privileges that the lookup read. A token without a version counts as version 0. */
  lemma RefreshExactly(c: Claims, lookup: Lookup)
    ensures Serves(JwtClaims(c, None, lookup)) <==>
            && Live(c) && !c.state.Garbled? && lookup.Read? && lookup.account.Some?
            && (if c.sessionVersion.Some? then c.sessionVersion.value else 0) == lookup.account.value.sessionVersion
            && !Predates(c.iat, lookup.account.value.passwordChangedAt)
    ensures Serves(JwtClaims(c, None, lookup)) ==>
              var r := JwtClaims(c, None, lookup).value;
              && r.userId == c.userId && r.sessionVersion == Some(Version(c.sessionVersion)) && r.iat == c.iat
              && Privileged(r, lookup.account.value, lookup.profile)
    ensures JwtClaims(c, None, lookup).Some? && !Live(JwtClaims(c, None, lookup).value) ==>
              JwtClaims(c, None, lookup).value in {c, DEAD}
    ensures !HasUser(c.userId) ==> JwtClaims(c, None, lookup) == Some(c)
    ensures DEAD.userId == None && DEAD.revoked && DEAD.state == Claimed(Revoked) && DEAD.memberships == [] && !DEAD.isA2rStaff
  {
  }

  /** A login serves if and only if its lookup found the account, and its token is
      pinned to the version the account has at that moment and has the privileges that
      were read with it. */
  lemma LoginExactly(user: string, lookup: Lookup)
    ensures Serves(JwtClaims(BLANK, Some(user), lookup)) <==> user != "" && lookup.Read? && lookup.account.Some?
    ensures Serves(JwtClaims(BLANK, Some(user), lookup)) ==>
              && JwtClaims(BLANK, Some(user), lookup).value.userId == Some(user)
              && JwtClaims(BLANK, Some(user), lookup).value.sessionVersion == Some(lookup.account.value.sessionVersion)
              && Privileged(JwtClaims(BLANK, Some(user), lookup).value, lookup.account.value, lookup.profile)
  {
  }

  /** A token handed from request to request; a callback that throws ends the chain. */
  function Refreshed(c: Claims, lookups: seq<Lookup>): Option<Claims>
    decreases |lookups|
  {
    if lookups == [] then Some(c)
    else
      match JwtClaims(c, None, lookups[0])
      case None => None
      case Some(next) => Refreshed(next, lookups[1..])
  }

  /** Once revoked, a token stays revoked and without a user, whatever the lookups say. */
  lemma {:induction false} RevokedForever(c: Claims, lookups: seq<Lookup>)
    requires !Live(c)
    ensures !Serves(Refreshed(c, lookups))
    decreases |lookups|
  {
    if lookups != [] {
      RefreshExactly(c, lookups[0]);
      match JwtClaims(c, None, lookups[0])
      case None =>
      case Some(next) => RevokedForever(next, lookups[1..]);
    }
  }

  // ------------------------------------------------------------------- runs

  /** A callback whose lookup is done: the claims it will return. `user`, `version` and
      `root` say, for the proofs, whose login it goes back to, the account's version when
      that login looked it up, and the place of that login among all requests. */
  datatype Request = Request(user: string, version: int, root: nat, result: Option<Claims>)

  /** A token in somebody's hands, with the login it goes back to. */
  datatype Issued = Issued(token: Claims, user: string, version: int, root: nat)

  /** The accounts, the ids that were ever given to an account, the users whose password
      has been verified, every request that has looked up its account, and every token
      that was ever issued: a token can be presented again at any time. */
  datatype World = World(
    accounts: map<string, Account>, used: set<string>, verified: set<string>, requests: seq<Request>, issued: seq<Issued>)

  /** The password check, the lookup and the issue of the token are steps of their own:
      anything can happen to the account between them. */
  datatype Event =
    | Register(user: string, mustChange: bool)
    | VerifyPassword(user: string)
    | LookUpLogin(user: string, seen: Option<Profile>)
    | LookUpRefresh(i: nat, seen: Option<Profile>)
    | IssueToken(k: nat, iat: int)
    | SignOutEverywhere(user: string)
    | ChangePassword(user: string, now: int)
    | SetFlag(user: string, mustChange: bool)
    | Stamp(user: string, now: int)
    | DeleteAccount(user: string)

  /** The lookup of a request: it fails, or reads the account as it is now. */
  function LookupOf(w: World, userId: Option<string>, seen: Option<Profile>): Lookup {
    if seen.None? then Failed
    else Read(if userId.Some? && userId.value in w.accounts then Some(w.accounts[userId.value]) else None, seen.value)
  }

  /** What presenting the `i`-th token gives. */
  function Presented(w: World, i: nat, seen: Option<Profile>): Option<Claims>
    requires i < |w.issued|
  {
    var c := w.issued[i].token;
    JwtClaims(c, None, LookupOf(w, c.userId, seen))
  }

  function VersionNow(w: World, user: string): int {
    if user in w.accounts then w.accounts[user].sessionVersion else 0
  }

  function Ask(w: World, r: Request): World {
    w.(requests := w.requests + [r])
  }

  function Issue(w: World, r: Request, iat: int): World {
    if r.result.None? then w
    else w.(issued := w.issued + [Issued(r.result.value.(iat := Some(iat)), r.user, r.version, r.root)])
  }

  function LoginRequest(w: World, user: string, seen: Option<Profile>): Request {
    Request(user, VersionNow(w, user), |w.requests|, JwtClaims(BLANK, Some(user), LookupOf(w, Some(user), seen)))
  }

  function RefreshRequest(w: World, i: nat, seen: Option<Profile>): Request
    requires i < |w.issued|
  {
    Request(w.issued[i].user, w.issued[i].version, w.issued[i].root, Presented(w, i, seen))
  }

  /** The request that mints the token for the device on which the password was changed. */
  function MintRequest(w: World, user: string): Request {
    var version := VersionNow(w, user);
    Request(user, version, |w.requests|,
            Some(BLANK.(userId := Some(user), sessionVersion := Some(version), state := Claimed(Active))))
  }

  function WithAccount(w: World, user: string, a: Account): World {
    w.(accounts := w.accounts[user := a])
  }

  function Bump(a: Account): Account {
    a.(sessionVersion := a.sessionVersion + 1)
  }

  function Changed(w: World, user: string, now: int): World
    requires user in w.accounts
  {
    WithAccount(w, user, Bump(w.accounts[user]).(mustChangePassword := false, passwordChangedAt := Some(now)))
  }

  function Step(w: World, e: Event): World {
    match e
    case Register(user, mustChange) =>
      if user in w.used then w else WithAccount(w, user, Account(0, mustChange, None)).(used := w.used + {user})
    case VerifyPassword(user) => if user in w.accounts then w.(verified := w.verified + {user}) else w
    case LookUpLogin(user, seen) => if user in w.verified then Ask(w, LoginRequest(w, user, seen)) else w
    case LookUpRefresh(i, seen) => if i < |w.issued| then Ask(w, RefreshRequest(w, i, seen)) else w
    case IssueToken(k, iat) => if k < |w.requests| then Issue(w, w.requests[k], iat) else w
    case SignOutEverywhere(user) => if user in w.accounts then WithAccount(w, user, Bump(w.accounts[user])) else w
    case ChangePassword(user, now) =>
      if user !in w.accounts then w else Ask(Changed(w, user, now), MintRequest(Changed(w, user, now), user))
    case SetFlag(user, mustChange) =>
      if user in w.accounts then WithAccount(w, user, w.accounts[user].(mustChangePassword := mustChange)) else w
    case Stamp(user, now) =>
      if user in w.accounts then WithAccount(w, user, w.accounts[user].(passwordChangedAt := Some(now))) else w
    case DeleteAccount(user) => w.(accounts := w.accounts - {user})
  }

  datatype Run = Start(world: World) | Then(earlier: Run, event: Event)

  function After(run: Run): World {
    match run
    case Start(w) => w
    case Then(earlier, e) => Step(After(earlier), e)
  }

  /** Live claims carry the user and the version of the login they go back to; claims
      from before versions existed carry none, which reads as 0. */
  predicate Pinned(w: World, user: string, version: int, claims: Option<Claims>) {
    && user in w.used
    && (user in w.accounts ==> version <= w.accounts[user].sessionVersion)
    && (Serves(claims) ==> claims.value.userId == Some(user) && Version(claims.value.sessionVersion) == version)
  }

  predicate RootIs(w: World, root: nat, user: string, version: int) {
    root < |w.requests| && w.requests[root].user == user && w.requests[root].version == version
  }

  predicate RequestOk(w: World, k: nat)
    requires k < |w.requests|
  {
    var r := w.requests[k];
    Pinned(w, r.user, r.version, r.result) && RootIs(w, r.root, r.user, r.version)
  }

  predicate TokenOk(w: World, i: nat)
    requires i < |w.issued|
  {
    var t := w.issued[i];
    Pinned(w, t.user, t.version, Some(t.token)) && RootIs(w, t.root, t.user, t.version)
  }

  predicate Inv(w: World) {
    && (forall user :: user in w.accounts ==> user in w.used)
    && w.verified <= w.used
    && (forall k :: 0 <= k < |w.requests| ==> RequestOk(w, k))
    && (forall i :: 0 <= i < |w.issued| ==> TokenOk(w, i))
  }

  /** The run starts in a world where this holds, for instance an empty one or one with
      tokens from before the version claim and all accounts at version 0. */
  predicate Fair(run: Run) {
    match run
    case Start(w) => Inv(w)
    case Then(earlier, _) => Fair(earlier)
  }

  /** Accounts change in place or go; their versions never go down. */
  predicate Onward(w: World, v: World) {
    && w.used <= v.used
    && w.requests <= v.requests && w.issued <= v.issued
    && (forall user :: user in v.accounts && user in w.used ==>
          user in w.accounts && w.accounts[user].sessionVersion <= v.accounts[user].sessionVersion)
  }

  lemma AskKeeps(w: World, r: Request)
    requires Inv(w) && Pinned(w, r.user, r.version, r.result)
    requires r.root == |w.requests| || RootIs(w, r.root, r.user, r.version)
    ensures Inv(Ask(w, r))
  {
    var v := Ask(w, r);
    forall k | 0 <= k < |v.requests| ensures RequestOk(v, k) {
      if k < |w.requests| { assert RequestOk(w, k); }
    }
    forall i | 0 <= i < |v.issued| ensures TokenOk(v, i) { assert TokenOk(w, i); }
  }

  lemma IssueKeeps(w: World, r: Request, iat: int)
    requires Inv(w) && Pinned(w, r.user, r.version, r.result) && RootIs(w, r.root, r.user, r.version)
    ensures Inv(Issue(w, r, iat))
  {
    if r.result.Some? {
      var v := Issue(w, r, iat);
      forall k | 0 <= k < |v.requests| ensures RequestOk(v, k) { assert RequestOk(w, k); }
      forall i | 0 <= i < |v.issued| ensures TokenOk(v, i) {
        if i < |w.issued| { assert TokenOk(w, i); }
      }
    }
  }

  /** Changing accounts without lowering a version keeps everything pinned. */
  lemma AccountsKeep(w: World, v: World)
    requires Inv(w) && Onward(w, v) && v.issued == w.issued && v.requests == w.requests && v.verified <= v.used
    requires forall user :: user in v.accounts ==> user in v.used
    ensures Inv(v)
  {
    forall k | 0 <= k < |v.requests| ensures RequestOk(v, k) { assert RequestOk(w, k); }
    forall i | 0 <= i < |v.issued| ensures TokenOk(v, i) { assert TokenOk(w, i); }
  }

  lemma RefreshPinned(w: World, i: nat, seen: Option<Profile>)
    requires Inv(w) && i < |w.issued|
    ensures var r := RefreshRequest(w, i, seen);
            Pinned(w, r.user, r.version, r.result) && RootIs(w, r.root, r.user, r.version)
  {
    assert TokenOk(w, i);
    RefreshExactly(w.issued[i].token, LookupOf(w, w.issued[i].token.userId, seen));
  }

  lemma StepKeeps(w: World, e: Event)
    requires Inv(w)
    ensures Inv(Step(w, e))
  {
    match e
    case LookUpLogin(user, seen) =>
      if user in w.verified {
        AskKeeps(w, LoginRequest(w, user, seen));
      }
    case LookUpRefresh(i, seen) =>
      if i < |w.issued| {
        RefreshPinned(w, i, seen);
        AskKeeps(w, RefreshRequest(w, i, seen));
      }
    case IssueToken(k, iat) =>
      if k < |w.requests| {
        assert RequestOk(w, k);
        IssueKeeps(w, w.requests[k], iat);
      }
    case ChangePassword(user, now) =>
      if user in w.accounts {
        AccountsKeep(w, Changed(w, user, now));
        AskKeeps(Changed(w, user, now), MintRequest(Changed(w, user, now), user));
      }
    case _ => AccountsKeep(w, Step(w, e));
  }

  lemma {:induction false} RunKeeps(run: Run)
    requires Fair(run)
    ensures Inv(After(run))
  {
    match run
    case Start(_) =>
    case Then(earlier, e) =>
      RunKeeps(earlier);
      StepKeeps(After(earlier), e);
  }

  /** One event never lowers a version, nor gives a deleted account's id to another. */
  lemma StepOnward(w: World, e: Event)
    requires forall user :: user in w.accounts ==> user in w.used
    ensures Onward(w, Step(w, e))
  {
  }

  lemma RunStepOnward(run: Run, e: Event)
    requires Fair(run)
    ensures Onward(After(run), After(Then(run, e)))
  {
    RunKeeps(run);
    StepOnward(After(run), e);
  }

  predicate Extends(run: Run, longer: Run) {
    run == longer || (longer.Then? && Extends(run, longer.earlier))
  }

  lemma {:induction false} RunOnward(run: Run, longer: Run)
    requires Fair(longer) && Extends(run, longer)
    ensures Onward(After(run), After(longer)) && Fair(run)
  {
    if run != longer {
      RunOnward(run, longer.earlier);
      RunStepOnward(longer.earlier, longer.event);
      OnwardOnward(After(run), After(longer.earlier), After(longer));
    }
  }

  lemma OnwardOnward(u: World, v: World, w: World)
    requires Onward(u, v) && Onward(v, w)
    ensures Onward(u, w)
  {
  }

  // ------------------------------------------------------------- main results

  /** In every run, presenting an issued token serves a request if and only if the
      token is live, the lookup works, and the account still is at the version at
      which the login behind the token found it, with no younger password. The request
      then has the privileges of this lookup, never those of an earlier one. */
  lemma ServedExactly(run: Run, i: nat, seen: Option<Profile>)
    requires Fair(run) && i < |After(run).issued|
    ensures var t, w := After(run).issued[i], After(run);
            Serves(Presented(w, i, seen)) <==>
            && Live(t.token) && !t.token.state.Garbled? && seen.Some? && t.user in w.accounts
            && w.accounts[t.user].sessionVersion == t.version
            && !Predates(t.token.iat, w.accounts[t.user].passwordChangedAt)
    ensures var t, w := After(run).issued[i], After(run);
            Serves(Presented(w, i, seen)) ==>
              && Presented(w, i, seen).value.userId == Some(t.user)
              && Privileged(Presented(w, i, seen).value, w.accounts[t.user], seen.value)
  {
    RunKeeps(run);
    var w := After(run);
    assert TokenOk(w, i);
    RefreshExactly(w.issued[i].token, LookupOf(w, w.issued[i].token.userId, seen));
  }

  /** The events that end every session of a user. */
  predicate Ends(e: Event, user: string) {
    (e.SignOutEverywhere? || e.ChangePassword? || e.DeleteAccount?) && e.user == user
  }

  lemma EndsOutdates(w: World, e: Event, root: nat)
    requires Inv(w) && root < |w.requests| && Ends(e, w.requests[root].user)
    ensures var user, v := w.requests[root].user, Step(w, e);
            user in w.used && (user in v.accounts ==> w.requests[root].version < v.accounts[user].sessionVersion)
  {
    assert RequestOk(w, root);
  }

  /** Whatever happens afterwards, no token that goes back to a login whose lookup came
      before such an event ever serves again: not one issued before it, nor one refreshed
      from it, nor one that the event overtook between its lookup and its issue. */
  lemma EndedForGood(before: Run, e: Event, later: Run, i: nat, seen: Option<Profile>)
    requires Fair(later) && Extends(Then(before, e), later) && i < |After(later).issued|
    requires After(later).issued[i].root < |After(before).requests| && Ends(e, After(later).issued[i].user)
    ensures !Serves(Presented(After(later), i, seen))
  {
    var t := After(later).issued[i];
    RunOnward(Then(before, e), later);
    RunKeeps(before);
    RunKeeps(later);
    assert TokenOk(After(later), i);
    assert After(later).requests[t.root] == After(before).requests[t.root];
    EndsOutdates(After(before), e, t.root);
    ServedExactly(later, i, seen);
  }

  /** No refresh gives a token another user or another version than its login's. */
  lemma NeverRepinned(run: Run, i: nat)
    requires Fair(run) && i < |After(run).issued| && Live(After(run).issued[i].token)
    ensures var w, t := After(run), After(run).issued[i];
            && t.root < |w.requests|
            && t.token.userId == Some(w.requests[t.root].user)
            && Version(t.token.sessionVersion) == w.requests[t.root].version
  {
    RunKeeps(run);
    assert TokenOk(After(run), i);
  }

  /** The lookup and the issue of a login, one after the other. */
  function LoggedIn(run: Run, user: string, profile: Profile, iat: int): Run {
    Then(Then(run, LookUpLogin(user, Some(profile))), IssueToken(|After(run).requests|, iat))
  }

  /** A login whose lookup works gets a token that serves at once, pinned to the version
      the account has, whenever the password was verified: even if the password has been
      changed since, as long as the token is not older than the change. */
  lemma FreshLoginServes(run: Run, user: string, profile: Profile, iat: int, seen: Profile)
    requires Fair(run) && user != "" && user in After(run).accounts && user in After(run).verified
    requires !Predates(Some(iat), After(run).accounts[user].passwordChangedAt)
    ensures var w := After(LoggedIn(run, user, profile, iat));
            && |w.issued| == |After(run).issued| + 1
            && user in w.accounts && w.issued[|w.issued| - 1].token.sessionVersion == Some(w.accounts[user].sessionVersion)
            && Serves(Presented(w, |w.issued| - 1, Some(seen)))
  {
    var done := LoggedIn(run, user, profile, iat);
    LoginExactly(user, LookupOf(After(run), Some(user), Some(profile)));
    ServedExactly(done, |After(done).issued| - 1, Some(seen));
  }

  /** A change between the check of the password and the lookup does not stop the login. */
  lemma LateLookupServes(run: Run, user: string, now: int, profile: Profile, iat: int, seen: Profile)
    requires Fair(run) && user != "" && user in After(run).accounts && iat >= now / 1000
    ensures var changed := Then(Then(run, VerifyPassword(user)), ChangePassword(user, now));
            var w := After(LoggedIn(changed, user, profile, iat));
            |w.issued| > 0 && Serves(Presented(w, |w.issued| - 1, Some(seen)))
  {
    FreshLoginServes(Then(Then(run, VerifyPassword(user)), ChangePassword(user, now)), user, profile, iat, seen);
  }

  /** A change between the lookup and the issue does: the token is born outdated. */
  lemma OvertakenLoginNeverServes(run: Run, user: string, looked: Option<Profile>, e: Event, iat: int, later: Run, seen: Option<Profile>)
    requires user in After(run).verified && Ends(e, user)
    requires var asked := Then(run, LookUpLogin(user, looked));
             && Fair(later) && Extends(Then(Then(asked, e), IssueToken(|After(run).requests|, iat)), later)
             && After(asked).requests[|After(run).requests|].result.Some?
    ensures var i := |After(Then(Then(run, LookUpLogin(user, looked)), e)).issued|;
            i < |After(later).issued| && !Serves(Presented(After(later), i, seen))
  {
    var asked := Then(run, LookUpLogin(user, looked));
    var ended := Then(asked, e);
    var issued := Then(ended, IssueToken(|After(run).requests|, iat));
    RunOnward(issued, later);
    ExtendsThrough(ended, issued, later);
    RunOnward(ended, later);
    RunKeeps(asked);
    assert After(ended).requests[|After(run).requests|] == After(asked).requests[|After(run).requests|];
    assert After(later).issued[|After(ended).issued|] == After(issued).issued[|After(ended).issued|];
    EndedForGood(asked, e, later, |After(ended).issued|, seen);
  }

  lemma {:induction false} ExtendsThrough(a: Run, b: Run, c: Run)
    requires b.Then? && b.earlier == a && Extends(b, c)
    ensures Extends(a, c)
  {
    if b != c { ExtendsThrough(a, b, c.earlier); }
  }

  /** A password change, and the issue of the token that is minted with it. */
  function PasswordChanged(run: Run, user: string, now: int, iat: int): Run {
    Then(Then(run, ChangePassword(user, now)), IssueToken(|After(run).requests|, iat))
  }

  /** Right after a password change the one token that serves its user is the one
      minted with it; it does as long as its second is not before the change. It comes
      without privileges, and its first request finds the account one version further,
      with nothing left to change. */
  lemma OnlyMintedServes(run: Run, user: string, now: int, iat: int, i: nat, seen: Profile)
    requires Fair(run) && user != "" && user in After(run).accounts
    requires i <= |After(run).issued|
    ensures var w := After(PasswordChanged(run, user, now, iat));
            && |w.issued| == |After(run).issued| + 1
            && (w.issued[i].user == user ==>
                  (Serves(Presented(w, i, Some(seen))) <==> i == |After(run).issued| && iat >= now / 1000))
    ensures var w, before := After(PasswordChanged(run, user, now, iat)), After(run).accounts[user];
            var minted := w.issued[|After(run).issued|].token;
            && user in w.accounts && w.accounts[user] == Account(before.sessionVersion + 1, false, Some(now))
            && minted.userId == Some(user) && minted.sessionVersion == Some(before.sessionVersion + 1)
            && minted.iat == Some(iat) && minted.state == Claimed(Active) && !minted.revoked
            && minted.memberships == [] && !minted.isA2rStaff && minted.operatorRole == None
  {
    RunKeeps(run);
    ServedExactly(PasswordChanged(run, user, now, iat), i, Some(seen));
    if i < |After(run).issued| { assert TokenOk(After(run), i); }
  }
}
