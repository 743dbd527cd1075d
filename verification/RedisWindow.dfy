/** The shared limiter (src/lib/rate-limiter-redis.ts): the atomic Lua script over
    one sorted set per key, with its expiry, and the policy when the backend is
    absent or fails. 429 is section 4 of RFC 6585. */
module RedisWindow {
  import opened Options
  import opened SlidingWindow

  datatype Entry = Entry(score: int, member: string)

  /** A sorted set and the server time at which the key expires; entries are listed
      in the order in which they were added. */
  datatype ZSet = ZSet(entries: seq<Entry>, expiresAt: int)

  datatype Reply = Reply(ok: bool, remaining: int, resetAt: int)

  const NO_KEY := ZSet([], 0)

  function ZSetAt(keys: map<string, ZSet>, key: string): ZSet {
    if key in keys then keys[key] else NO_KEY
  }

  /** Once its time has come an expired key may be dropped at any access. */
  function Access(z: ZSet, serverNow: int, evict: bool): ZSet {
    if evict && serverNow >= z.expiresAt then NO_KEY else z
  }

  /** ZREMRANGEBYSCORE from 0 to `max`. */
  function RemoveRange(entries: seq<Entry>, max: int): seq<Entry> {
    if entries == [] then []
    else if 0 <= entries[0].score <= max then RemoveRange(entries[1..], max)
    else [entries[0]] + RemoveRange(entries[1..], max)
  }

  /** ZADD: a member that is present only changes its score. */
  function AddEntry(entries: seq<Entry>, score: int, member: string): seq<Entry> {
    if entries == [] then [Entry(score, member)]
    else if entries[0].member == member then [Entry(score, member)] + entries[1..]
    else [entries[0]] + AddEntry(entries[1..], score, member)
  }

  /** The score of the first element, ZRANGE 0 0. */
  function MinScore(entries: seq<Entry>): int
    requires entries != []
  {
    if |entries| == 1 then entries[0].score
    else if entries[0].score < MinScore(entries[1..]) then entries[0].score
    else MinScore(entries[1..])
  }

  function Trimmed(z: ZSet, now: int, rule: Rule): seq<Entry> {
    RemoveRange(z.entries, now - rule.windowMs)
  }

  function ScriptReply(entries: seq<Entry>, now: int, rule: Rule): Reply {
    if |entries| >= rule.limit then
      Reply(false, 0, if entries == [] then now + rule.windowMs else MinScore(entries) + rule.windowMs)
    else Reply(true, rule.limit - |entries| - 1, now + rule.windowMs)
  }

  /** The sorted set that the script leaves; PEXPIRE with no time left deletes the key. */
  function ScriptZSet(z: ZSet, now: int, rule: Rule, member: string, serverNow: int): ZSet {
    var entries := Trimmed(z, now, rule);
    if |entries| >= rule.limit then z.(entries := entries)
    else if rule.windowMs <= 0 then NO_KEY
    else ZSet(AddEntry(entries, now, member), serverNow + rule.windowMs)
  }

  /** What a reply says of the entries in the window: whether and how many more there is
      room for, and when there is room again, a whole window from now or when the oldest
      entry leaves. */
  predicate Replies(entries: seq<Entry>, now: int, rule: Rule, reply: Reply) {
    && (reply.ok <==> |entries| < rule.limit)
    && reply.remaining == (if reply.ok then rule.limit - |entries| - 1 else 0)
    && (reply.ok || entries == [] ==> reply.resetAt == now + rule.windowMs)
    && (!reply.ok && entries != [] ==>
          && (forall e :: e in entries ==> reply.resetAt <= e.score + rule.windowMs)
          && (exists i :: 0 <= i < |entries| && reply.resetAt == entries[i].score + rule.windowMs))
  }

  lemma {:induction false} OldestScore(entries: seq<Entry>) returns (i: nat)
    requires entries != []
    ensures i < |entries| && MinScore(entries) == entries[i].score
    ensures forall e :: e in entries ==> MinScore(entries) <= e.score
  {
    i := 0;
    if |entries| > 1 {
      var j := OldestScore(entries[1..]);
      if MinScore(entries) != entries[0].score { i := j + 1; }
      assert entries == [entries[0]] + entries[1..];
    }
  }

  lemma ScriptReplies(entries: seq<Entry>, now: int, rule: Rule)
    ensures Replies(entries, now, rule, ScriptReply(entries, now, rule))
  {
    if entries != [] { var i := OldestScore(entries); }
  }

  function ToResult(reply: Reply, rule: Rule, now: int): Result {
    Result(reply.ok, rule.limit, Max(0, reply.remaining),
           Some(if reply.ok then 0 else RetryAfterSeconds(reply.resetAt, now)), Some(reply.resetAt))
  }

  class RedisStore {
    var keys: map<string, ZSet>

    constructor ()
      ensures keys == map[]
    {
      keys := map[];
    }

    /** SLIDING_WINDOW_LUA, one atomic round trip. */
    method Eval(key: string, now: int, rule: Rule, member: string, serverNow: int, evict: bool)
      returns (reply: Reply)
      modifies this
      ensures var z := Access(old(ZSetAt(keys, key)), serverNow, evict);
              && reply == ScriptReply(Trimmed(z, now, rule), now, rule)
              && keys == old(keys)[key := ScriptZSet(z, now, rule, member, serverNow)]
      ensures Replies(Trimmed(Access(old(ZSetAt(keys, key)), serverNow, evict), now, rule), now, rule, reply)
      ensures reply.ok && rule.windowMs > 0 ==> keys[key].expiresAt == serverNow + rule.windowMs
      ensures !reply.ok ==> forall e :: e in keys[key].entries ==> !(0 <= e.score <= now - rule.windowMs)
      ensures !reply.ok ==> keys[key].expiresAt == Access(old(ZSetAt(keys, key)), serverNow, evict).expiresAt
    {
      var z := Access(ZSetAt(keys, key), serverNow, evict);
      var entries := RemoveRange(z.entries, now - rule.windowMs);
      RemovedMembers(z.entries, now - rule.windowMs);
      ScriptReplies(entries, now, rule);
      keys := keys[key := z.(entries := entries)];
      var count := |entries|;
      if count >= rule.limit {
        var resetAt := now + rule.windowMs;
        if entries != [] { resetAt := MinScore(entries) + rule.windowMs; }
        return Reply(false, 0, resetAt);
      }
      entries := AddEntry(entries, now, member);
      keys := keys[key := ZSet(entries, serverNow + rule.windowMs)];
      if rule.windowMs <= 0 {
        keys := keys[key := NO_KEY];
      }
      reply := Reply(true, rule.limit - count - 1, now + rule.windowMs);
    }
  }

  // ----------------------------------------------------------- failure policy

  const FAIL_CLOSED_RETRY_SECONDS := 5

  datatype Notice = InProcessOnly | FallbackAllowed | FellBack | FailedClosed

  /** How one call to the backend goes: it answers, or it throws, before or after
      the script has run. */
  datatype Outcome = Answers | ThrowsBefore | ThrowsAfter

  function FailClosed(rule: Rule, now: int): Result {
    Result(false, rule.limit, 0, Some(FAIL_CLOSED_RETRY_SECONDS), Some(now + FAIL_CLOSED_RETRY_SECONDS * 1000))
  }

  /** A denial at the instant `later`: nothing remains, and the caller is to come back in
      five seconds, which is when the window is said to be open again. */
  predicate Denied(r: Result, rule: Rule, later: int) {
    && !r.ok && r.limit == rule.limit && r.remaining == 0
    && r.retryAfterSeconds == Some(5)
    && r.resetAt == Some(later + 5000) == Some(later + 1000 * r.retryAfterSeconds.value)
  }

  /** What a hit gives notice of: that there is no backend, in production, or what was
      done about one that failed. */
  function NoticeFor(production: bool, allowFallback: bool, backend: bool, outcome: Outcome): Option<Notice> {
    if !backend then (if production then Some(InProcessOnly) else None)
    else if outcome == Answers then None
    else Some(FailureNotice(production, allowFallback))
  }

  function FailureNotice(production: bool, allowFallback: bool): Notice {
    if !production then FellBack else if allowFallback then FallbackAllowed else FailedClosed
  }

  /** Each notice has its one occasion. */
  lemma NoticeExactly(production: bool, allowFallback: bool, backend: bool, outcome: Outcome)
    ensures var notice, failed := NoticeFor(production, allowFallback, backend, outcome), backend && outcome != Answers;
            && (notice == Some(InProcessOnly) <==> !backend && production)
            && (notice == Some(FallbackAllowed) <==> failed && production && allowFallback)
            && (notice == Some(FellBack) <==> failed && !production)
            && (notice == Some(FailedClosed) <==> failed && production && !allowFallback)
  {
  }

  predicate SentOnce(notices: seq<Notice>, inProcessOnly: bool, fallbackAllowed: bool, scriptFailure: bool) {
    && multiset(notices)[InProcessOnly] == Once(inProcessOnly)
    && multiset(notices)[FallbackAllowed] == Once(fallbackAllowed)
    && multiset(notices)[FellBack] + multiset(notices)[FailedClosed] == Once(scriptFailure)
  }

  function Once(sent: bool): nat { if sent then 1 else 0 }

  /** One server instance: its own limiter, and the shared store if it is configured. */
  class DistributedLimiter {
    const production: bool
    const allowFallback: bool
    const local: RateLimiter
    const shared: RedisStore?
    var inProcessOnlyNoticeLogged: bool
    var scriptFailureReported: bool
    var fallbackAllowedReported: bool
    var notices: seq<Notice>

    /** Each notice was sent at most once, exactly when its flag says so. */
    ghost predicate Valid()
      reads this
    {
      SentOnce(notices, inProcessOnlyNoticeLogged, fallbackAllowedReported, scriptFailureReported)
    }

    constructor (production: bool, allowFallback: bool, local: RateLimiter, shared: RedisStore?)
      ensures Valid() && this.production == production && this.allowFallback == allowFallback
      ensures this.local == local && this.shared == shared && notices == []
    {
      this.production, this.allowFallback, this.local, this.shared := production, allowFallback, local, shared;
      inProcessOnlyNoticeLogged, scriptFailureReported, fallbackAllowedReported := false, false, false;
      notices := [];
    }

    /** Whether a notice of this kind has been sent; a fallback outside production and
        a closed door share one flag. */
    predicate Sent(notice: Notice)
      reads this
    {
      match notice
      case InProcessOnly => inProcessOnlyNoticeLogged
      case FallbackAllowed => fallbackAllowedReported
      case _ => scriptFailureReported
    }

    /** Sends the notice unless one of its kind has been sent. */
    method Report(notice: Notice)
      requires Valid()
      modifies `inProcessOnlyNoticeLogged, `scriptFailureReported, `fallbackAllowedReported, `notices
      ensures Valid() && Sent(notice)
      ensures notices == old(notices) + if old(Sent(notice)) then [] else [notice]
      ensures inProcessOnlyNoticeLogged == (old(inProcessOnlyNoticeLogged) || notice.InProcessOnly?)
      ensures fallbackAllowedReported == (old(fallbackAllowedReported) || notice.FallbackAllowed?)
      ensures scriptFailureReported == (old(scriptFailureReported) || notice.FellBack? || notice.FailedClosed?)
    {
      match notice {
        case InProcessOnly =>
          if inProcessOnlyNoticeLogged { return; }
          inProcessOnlyNoticeLogged := true;
        case FallbackAllowed =>
          if fallbackAllowedReported { return; }
          fallbackAllowedReported := true;
        case _ =>
          if scriptFailureReported { return; }
          scriptFailureReported := true;
      }
      notices := notices + [notice];
    }

    /** The call to the backend: a reply, or nothing when it throws. */
    method CallBackend(store: RedisStore, now: int, key: string, rule: Rule, member: string, serverNow: int,
                       evict: bool, outcome: Outcome)
      returns (reply: Option<Reply>)
      modifies store
      ensures reply.Some? <==> outcome == Answers
      ensures var z := Access(old(ZSetAt(store.keys, key)), serverNow, evict);
              && (reply.Some? ==> reply.value == ScriptReply(Trimmed(z, now, rule), now, rule))
              && store.keys == if outcome == ThrowsBefore then old(store.keys)
                               else old(store.keys)[key := ScriptZSet(z, now, rule, member, serverNow)]
    {
      reply := None;
      if outcome != ThrowsBefore {
        var answer := store.Eval(key, now, rule, member, serverNow, evict);
        if outcome == Answers { reply := Some(answer); }
      }
    }

    /** The instance's own limiter answers, with a notice where one is due. */
    method HitLocally(notice: Option<Notice>, now: int, key: string, rule: Rule) returns (r: Result)
      requires Valid()
      modifies this, local
      ensures Valid() && notices == old(notices) + if notice.None? || old(Sent(notice.value)) then [] else [notice.value]
      ensures r == HitResult(old(local.Abstract()), now, key, rule)
      ensures local.Abstract() == HitState(old(local.Abstract()), now, key, rule)
    {
      if notice.Some? { Report(notice.value); }
      r := local.Hit(now, key, rule);
    }

    /** After a failure, at the instant `later`: the instance's own limiter answers
        wherever falling back is accepted, and otherwise the request is denied. */
    method OnFailure(later: int, key: string, rule: Rule) returns (r: Result)
      requires Valid()
      modifies this, local
      ensures Valid()
      ensures var notice := FailureNotice(production, allowFallback);
              notices == old(notices) + if old(Sent(notice)) then [] else [notice]
      ensures !production || allowFallback ==>
                && r == HitResult(old(local.Abstract()), later, key, rule)
                && local.Abstract() == HitState(old(local.Abstract()), later, key, rule)
      ensures production && !allowFallback ==>
                Denied(r, rule, later) && scriptFailureReported && local.Abstract() == old(local.Abstract())
    {
      if !production || allowFallback {
        r := HitLocally(Some(if production then FallbackAllowed else FellBack), later, key, rule);
        return;
      }
      Report(FailedClosed);
      r := FailClosed(rule, later);
    }

    /** With no backend, and after a failure wherever falling back is accepted, the
        instance's own limiter answers; a backend that answers decides alone; a
        failure in production otherwise denies the request and touches neither the
        local buckets nor the flags of other notices. After a failure the clock is read
        again, at `later`. */
    method HitDistributed(now: int, later: int, key: string, rule: Rule, member: string, serverNow: int, evict: bool,
                          outcome: Outcome)
      returns (r: Result)
      requires Valid()
      modifies this, local, shared
      ensures Valid()
      ensures var notice := NoticeFor(production, allowFallback, shared != null, outcome);
              notices == old(notices) + if notice.None? || old(Sent(notice.value)) then [] else [notice.value]
      ensures shared == null || (outcome != Answers && (!production || allowFallback)) ==>
                var at := if shared == null then now else later;
                && r == HitResult(old(local.Abstract()), at, key, rule)
                && local.Abstract() == HitState(old(local.Abstract()), at, key, rule)
      ensures shared != null && (outcome == Answers || (production && !allowFallback)) ==>
                local.Abstract() == old(local.Abstract())
      ensures shared != null ==>
                var z := Access(old(ZSetAt(shared.keys, key)), serverNow, evict);
                && (outcome == Answers ==> r == ToResult(ScriptReply(Trimmed(z, now, rule), now, rule), rule, now))
                && (outcome != Answers && production && !allowFallback ==> Denied(r, rule, later) && scriptFailureReported)
                && shared.keys == if outcome == ThrowsBefore then old(shared.keys)
                                  else old(shared.keys)[key := ScriptZSet(z, now, rule, member, serverNow)]
    {
      if shared == null {
        r := HitLocally(if production then Some(InProcessOnly) else None, now, key, rule);
        return;
      }
      var reply := CallBackend(shared, now, key, rule, member, serverNow, evict, outcome);
      if reply.Some? {
        r := ToResult(reply.value, rule, now);
      } else {
        r := OnFailure(later, key, rule);
      }
    }
  }

  // ------------------------------------------------------------------- runs

  /** One run of the script, in true time; `clock` is what its caller read. */
  datatype Eval = Eval(key: string, trueTime: int, clock: int, member: string, evict: bool)

  datatype History = Fresh | More(earlier: History, eval: Eval)

  /** The server's clock keeps true time, up to a constant offset. */
  function Stored(rules: string -> Rule, offset: int, h: History, key: string): ZSet {
    match h
    case Fresh => NO_KEY
    case More(earlier, e) =>
      if e.key != key then Stored(rules, offset, earlier, key)
      else ScriptZSet(Access(Stored(rules, offset, earlier, key), e.trueTime + offset, e.evict),
                      e.clock, rules(key), e.member, e.trueTime + offset)
  }

  /** The entries that the script counts when `e` comes after a history. */
  function Counted(rules: string -> Rule, offset: int, h: History, e: Eval): seq<Entry> {
    Trimmed(Access(Stored(rules, offset, h, e.key), e.trueTime + offset, e.evict), e.clock, rules(e.key))
  }

  function SharedAnswer(rules: string -> Rule, offset: int, h: History, e: Eval): Result {
    ToResult(ScriptReply(Counted(rules, offset, h, e), e.clock, rules(e.key)), rules(e.key), e.clock)
  }

  /** The true times of the accepted hits of a key. */
  function AcceptedAt(rules: string -> Rule, offset: int, h: History, key: string): seq<int> {
    match h
    case Fresh => []
    case More(earlier, e) =>
      var times := AcceptedAt(rules, offset, earlier, key);
      if e.key == key && SharedAnswer(rules, offset, earlier, e).ok then times + [e.trueTime] else times
  }

  /** Every member was made by the one run that happened at the time `born` gives it. */
  predicate UniqueMembers(h: History, born: string -> int, used: set<string>) {
    match h
    case Fresh => true
    case More(earlier, e) =>
      e.member !in used && born(e.member) == e.trueTime && UniqueMembers(earlier, born, used + {e.member})
  }

  /** True time goes forward, and each caller's clock is within `d` of it. */
  predicate Timed(h: History, d: int, last: int) {
    match h
    case Fresh => true
    case More(earlier, e) => e.trueTime <= last && -d <= e.clock - e.trueTime <= d && Timed(earlier, d, e.trueTime)
  }

  function Births(entries: seq<Entry>, born: string -> int): seq<int> {
    if entries == [] then [] else [born(entries[0].member)] + Births(entries[1..], born)
  }

  // --------------------------------------------- what the sorted set still shows

  predicate HasMember(h: History, member: string) {
    h.More? && (h.eval.member == member || HasMember(h.earlier, member))
  }

  lemma {:induction false} UnusedMember(h: History, born: string -> int, used: set<string>, member: string)
    requires UniqueMembers(h, born, used) && member in used
    ensures !HasMember(h, member)
  {
    match h
    case Fresh =>
    case More(earlier, e) => UnusedMember(earlier, born, used + {e.member}, member);
  }

  /** The stored entries show every acceptance that can still be in a window; each
      entry's score is near its true time, and the key outlives its window. */
  ghost predicate Shows(z: ZSet, h: History, born: string -> int, times: seq<int>, d: int, w: int, offset: int, last: int) {
    && (forall start :: start >= last - (w - 2 * d) ==> After(Births(z.entries, born), start) == After(times, start))
    && (forall i :: 0 <= i < |z.entries| ==> EntryOk(z.entries[i], z.expiresAt, h, born, d, w, offset, last))
    && AtMost(times, last) && Ascending(times)
  }

  predicate EntryOk(e: Entry, expiresAt: int, h: History, born: string -> int, d: int, w: int, offset: int, last: int) {
    && -d <= e.score - born(e.member) <= d
    && born(e.member) + offset + w <= expiresAt
    && born(e.member) <= last
    && HasMember(h, e.member)
  }

  lemma {:induction false} BirthsAt(entries: seq<Entry>, born: string -> int)
    ensures |Births(entries, born)| == |entries|
    ensures forall i :: 0 <= i < |entries| ==> Births(entries, born)[i] == born(entries[i].member)
  {
    if entries != [] {
      BirthsAt(entries[1..], born);
    }
  }

  lemma {:induction false} BirthsAppend(entries: seq<Entry>, e: Entry, born: string -> int)
    ensures Births(entries + [e], born) == Births(entries, born) + [born(e.member)]
  {
    if entries == [] {
      assert entries + [e] == [e];
    } else {
      BirthsAppend(entries[1..], e, born);
      assert (entries + [e])[1..] == entries[1..] + [e];
    }
  }

  lemma {:induction false} RemovedMembers(entries: seq<Entry>, max: int)
    ensures forall i :: 0 <= i < |RemoveRange(entries, max)| ==>
              RemoveRange(entries, max)[i] in entries && !(0 <= RemoveRange(entries, max)[i].score <= max)
  {
    if entries != [] {
      RemovedMembers(entries[1..], max);
      assert entries == [entries[0]] + entries[1..];
    }
  }

  /** Removing old scores hides no entry born after `start`. */
  lemma {:induction false} RemoveKeepsRecent(entries: seq<Entry>, max: int, born: string -> int, start: int)
    requires forall i :: 0 <= i < |entries| && entries[i].score <= max ==> born(entries[i].member) <= start
    ensures After(Births(RemoveRange(entries, max), born), start) == After(Births(entries, born), start)
  {
    if entries != [] {
      assert forall i :: 0 <= i < |entries[1..]| ==> entries[1..][i] == entries[i + 1];
      RemoveKeepsRecent(entries[1..], max, born, start);
    }
  }

  lemma {:induction false} AddFresh(entries: seq<Entry>, score: int, member: string)
    requires forall i :: 0 <= i < |entries| ==> entries[i].member != member
    ensures AddEntry(entries, score, member) == entries + [Entry(score, member)]
  {
    if entries != [] {
      assert forall i :: 0 <= i < |entries[1..]| ==> entries[1..][i] == entries[i + 1];
      AddFresh(entries[1..], score, member);
      assert entries == [entries[0]] + entries[1..];
    }
  }

  /** Dropping an expired key hides nothing that a window can still ask for. */
  lemma AccessKeeps(z: ZSet, h: History, born: string -> int, times: seq<int>, d: int, w: int, offset: int,
                    last: int, now: int, evict: bool)
    requires Shows(z, h, born, times, d, w, offset, last) && last <= now && d >= 0
    ensures Shows(Access(z, now + offset, evict), h, born, times, d, w, offset, now)
  {
    if evict && now + offset >= z.expiresAt {
      forall start | start >= now - (w - 2 * d) ensures After(times, start) == [] {
        BirthsAt(z.entries, born);
        forall i | 0 <= i < |z.entries| ensures Births(z.entries, born)[i] <= start {
          assert EntryOk(z.entries[i], z.expiresAt, h, born, d, w, offset, last);
        }
        AfterNone(Births(z.entries, born), start);
      }
    } else {
      forall i | 0 <= i < |z.entries| ensures EntryOk(z.entries[i], z.expiresAt, h, born, d, w, offset, now) {
        assert EntryOk(z.entries[i], z.expiresAt, h, born, d, w, offset, last);
      }
    }
  }

  /** Neither does trimming with a clock that is off by at most `d`. */
  lemma TrimKeeps(z: ZSet, h: History, born: string -> int, times: seq<int>, d: int, rule: Rule, offset: int,
                  now: int, clock: int)
    requires Shows(z, h, born, times, d, rule.windowMs, offset, now) && -d <= clock - now <= d
    ensures Shows(z.(entries := Trimmed(z, clock, rule)), h, born, times, d, rule.windowMs, offset, now)
  {
    var w, kept := rule.windowMs, Trimmed(z, clock, rule);
    forall start | start >= now - (w - 2 * d) ensures After(Births(kept, born), start) == After(times, start) {
      forall i | 0 <= i < |z.entries| && z.entries[i].score <= clock - w ensures born(z.entries[i].member) <= start {
        assert EntryOk(z.entries[i], z.expiresAt, h, born, d, w, offset, now);
      }
      RemoveKeepsRecent(z.entries, clock - w, born, start);
    }
    RemovedMembers(z.entries, clock - w);
    forall i | 0 <= i < |kept| ensures EntryOk(kept[i], z.expiresAt, h, born, d, w, offset, now) {
      var k :| 0 <= k < |z.entries| && z.entries[k] == kept[i];
      assert EntryOk(z.entries[k], z.expiresAt, h, born, d, w, offset, now);
    }
  }

  /** An accepted hit is added to what the sorted set shows. */
  lemma AddKeeps(z: ZSet, h: History, e: Eval, born: string -> int, times: seq<int>, d: int, w: int, offset: int)
    requires Shows(z, h, born, times, d, w, offset, e.trueTime) && -d <= e.clock - e.trueTime <= d && d >= 0
    requires !HasMember(h, e.member) && born(e.member) == e.trueTime && w > 0
    ensures Shows(ZSet(AddEntry(z.entries, e.clock, e.member), e.trueTime + offset + w), More(h, e), born,
                  times + [e.trueTime], d, w, offset, e.trueTime)
  {
    var entry, deadline := Entry(e.clock, e.member), e.trueTime + offset + w;
    forall i | 0 <= i < |z.entries|
      ensures z.entries[i].member != e.member
      ensures EntryOk(z.entries[i], deadline, More(h, e), born, d, w, offset, e.trueTime)
    {
      assert EntryOk(z.entries[i], z.expiresAt, h, born, d, w, offset, e.trueTime);
    }
    AddFresh(z.entries, e.clock, e.member);
    BirthsAppend(z.entries, entry, born);
    forall start | start >= e.trueTime - (w - 2 * d)
      ensures After(Births(z.entries + [entry], born), start) == After(times + [e.trueTime], start)
    {
      AfterAppend(Births(z.entries, born), [e.trueTime], start);
      AfterAppend(times, [e.trueTime], start);
    }
  }

  /** When no time is left nothing is kept, and nothing needs to be. */
  lemma NoWindowKeeps(h: History, born: string -> int, times: seq<int>, d: int, w: int, offset: int, now: int)
    requires AtMost(times, now) && Ascending(times) && w <= 0 && d >= 0
    ensures Shows(NO_KEY, h, born, times, d, w, offset, now)
  {
    forall start | start >= now - (w - 2 * d) ensures After(times, start) == [] {
      AfterNone(times, start);
    }
  }

  /** The state in which the script counts, given what the history left. */
  lemma CountedShows(rules: string -> Rule, offset: int, h: History, e: Eval, born: string -> int, d: int, last: int)
    requires Shows(Stored(rules, offset, h, e.key), h, born, AcceptedAt(rules, offset, h, e.key), d, rules(e.key).windowMs, offset, last)
    requires last <= e.trueTime && -d <= e.clock - e.trueTime <= d && d >= 0
    ensures var z := Access(Stored(rules, offset, h, e.key), e.trueTime + offset, e.evict);
            Shows(z.(entries := Counted(rules, offset, h, e)), h, born, AcceptedAt(rules, offset, h, e.key), d,
                  rules(e.key).windowMs, offset, e.trueTime)
  {
    var times, w := AcceptedAt(rules, offset, h, e.key), rules(e.key).windowMs;
    var z := Stored(rules, offset, h, e.key);
    AccessKeeps(z, h, born, times, d, w, offset, last, e.trueTime, e.evict);
    TrimKeeps(Access(z, e.trueTime + offset, e.evict), h, born, times, d, rules(e.key), offset, e.trueTime, e.clock);
  }

  lemma EvalShows(rules: string -> Rule, offset: int, h: History, e: Eval, born: string -> int, d: int, last: int)
    requires Shows(Stored(rules, offset, h, e.key), h, born, AcceptedAt(rules, offset, h, e.key), d, rules(e.key).windowMs, offset, last)
    requires last <= e.trueTime && -d <= e.clock - e.trueTime <= d && d >= 0
    requires !HasMember(h, e.member) && born(e.member) == e.trueTime
    ensures Shows(Stored(rules, offset, More(h, e), e.key), More(h, e), born,
                  AcceptedAt(rules, offset, More(h, e), e.key), d, rules(e.key).windowMs, offset, e.trueTime)
  {
    var times, rule := AcceptedAt(rules, offset, h, e.key), rules(e.key);
    var z := Access(Stored(rules, offset, h, e.key), e.trueTime + offset, e.evict);
    var counted := z.(entries := Counted(rules, offset, h, e));
    CountedShows(rules, offset, h, e, born, d, last);
    if |counted.entries| >= rule.limit {
    } else if rule.windowMs <= 0 {
      NoWindowKeeps(More(h, e), born, times + [e.trueTime], d, rule.windowMs, offset, e.trueTime);
    } else {
      AddKeeps(counted, h, e, born, times, d, rule.windowMs, offset);
    }
  }

  lemma {:induction false} HistoryShows(rules: string -> Rule, offset: int, h: History, key: string, born: string -> int,
                                        used: set<string>, d: int, last: int)
    requires Timed(h, d, last) && UniqueMembers(h, born, used) && d >= 0
    ensures Shows(Stored(rules, offset, h, key), h, born, AcceptedAt(rules, offset, h, key), d, rules(key).windowMs, offset, last)
    decreases h
  {
    match h
    case Fresh =>
    case More(earlier, e) =>
      HistoryShows(rules, offset, earlier, key, born, used + {e.member}, d, e.trueTime);
      if e.key == key {
        UnusedMember(earlier, born, used + {e.member}, e.member);
        EvalShows(rules, offset, earlier, e, born, d, e.trueTime);
      } else {
      }
      AccessKeeps(Stored(rules, offset, h, key), h, born, AcceptedAt(rules, offset, h, key), d, rules(key).windowMs, offset,
                  e.trueTime, last, false);
  }

  // ------------------------------------------------------------ main results

  /** However the instances interleave, and although entries are trimmed and keys
      expire, no interval of true time shorter than the window by twice the clock
      error ever holds more than `limit` accepted hits. */
  lemma {:induction false} SharedWindowCap(rules: string -> Rule, offset: int, h: History, key: string, born: string -> int,
                                           used: set<string>, d: int, last: int, hi: int)
    requires Timed(h, d, last) && UniqueMembers(h, born, used) && d >= 0
    ensures Between(AcceptedAt(rules, offset, h, key), hi - (rules(key).windowMs - 2 * d), hi) <= Max(0, rules(key).limit)
    decreases h
  {
    match h
    case Fresh =>
    case More(earlier, e) =>
      SharedWindowCap(rules, offset, earlier, key, born, used + {e.member}, d, e.trueTime, hi);
      if e.key == key && SharedAnswer(rules, offset, earlier, e).ok {
        AcceptanceFits(rules, offset, earlier, e, born, used + {e.member}, d, hi);
      }
  }

  lemma AcceptanceFits(rules: string -> Rule, offset: int, h: History, e: Eval, born: string -> int,
                       used: set<string>, d: int, hi: int)
    requires Timed(h, d, e.trueTime) && -d <= e.clock - e.trueTime <= d && UniqueMembers(h, born, used) && d >= 0
    requires SharedAnswer(rules, offset, h, e).ok
    requires Between(AcceptedAt(rules, offset, h, e.key), hi - (rules(e.key).windowMs - 2 * d), hi) <= Max(0, rules(e.key).limit)
    ensures Between(AcceptedAt(rules, offset, h, e.key) + [e.trueTime], hi - (rules(e.key).windowMs - 2 * d), hi)
            <= Max(0, rules(e.key).limit)
  {
    var times, span := AcceptedAt(rules, offset, h, e.key), rules(e.key).windowMs - 2 * d;
    RecentAreCounted(rules, offset, h, e, born, used, d);
    BetweenAppend(times, [e.trueTime], hi - span, hi);
    if e.trueTime <= hi {
      BetweenAfter(times, hi - span, e.trueTime - span, hi, e.trueTime);
    }
  }

  /** Whatever was accepted within the shortened window is among what is counted. */
  lemma RecentAreCounted(rules: string -> Rule, offset: int, h: History, e: Eval, born: string -> int,
                         used: set<string>, d: int)
    requires Timed(h, d, e.trueTime) && -d <= e.clock - e.trueTime <= d && UniqueMembers(h, born, used) && d >= 0
    ensures |After(AcceptedAt(rules, offset, h, e.key), e.trueTime - (rules(e.key).windowMs - 2 * d))|
            <= |Counted(rules, offset, h, e)|
    ensures AtMost(AcceptedAt(rules, offset, h, e.key), e.trueTime)
  {
    HistoryShows(rules, offset, h, e.key, born, used, d, e.trueTime);
    CountedShows(rules, offset, h, e, born, d, e.trueTime);
    AfterShape(Births(Counted(rules, offset, h, e), born), e.trueTime - (rules(e.key).windowMs - 2 * d));
    BirthsAt(Counted(rules, offset, h, e), born);
  }

  /** Twice the clock error is not too much to take off: a caller that is slow by
      `d` and one that is fast by `d` get two hits through a limit of one when they
      come as far apart as the shortened window. */
  lemma SkewBoundIsTight(rules: string -> Rule, key: string, d: nat, w: int)
    requires rules(key) == Rule(1, w) && w > 2 * d
    ensures var first := Eval(key, d, 0, "a", false);
            var second := Eval(key, w - d, w, "b", false);
            var h := More(More(Fresh, first), second);
            && Timed(h, d, w - d)
            && AcceptedAt(rules, 0, h, key) == [d, w - d]
  {
    var first := Eval(key, d, 0, "a", false);
    var second := Eval(key, w - d, w, "b", false);
    assert SharedAnswer(rules, 0, Fresh, first).ok;
    assert AcceptedAt(rules, 0, More(Fresh, first), key) == [d];
    assert Stored(rules, 0, More(Fresh, first), key).entries == [Entry(0, "a")];
    assert Counted(rules, 0, More(Fresh, first), second) == RemoveRange([Entry(0, "a")], 0) == [];
  }

  // ------------------------------------- equivalence with the in-process limiter

  /** The same hits, as one in-process limiter would get them. */
  function InProcess(h: History): Run {
    match h
    case Fresh => Start
    case More(earlier, e) => Then(InProcess(earlier), Call(e.clock, e.key))
  }

  /** No clock shows a time before the epoch. */
  predicate AfterEpoch(h: History) {
    h.More? ==> h.eval.clock >= 0 && AfterEpoch(h.earlier)
  }

  lemma {:induction false} SameOrder(h: History, last: int)
    requires Timed(h, 0, last)
    ensures Ordered(InProcess(h), last)
  {
    match h
    case Fresh =>
    case More(earlier, e) => SameOrder(earlier, e.trueTime);
  }

  /** With entries in order of time, the least score is the first one's. */
  lemma {:induction false} MinScoreFirst(entries: seq<Entry>, born: string -> int)
    requires entries != [] && Ascending(Births(entries, born))
    requires forall i :: 0 <= i < |entries| ==> entries[i].score == born(entries[i].member)
    ensures MinScore(entries) == Births(entries, born)[0]
  {
    BirthsAt(entries, born);
    if |entries| > 1 {
      BirthsAt(entries[1..], born);
      forall i, j | 0 <= i < j < |entries[1..]| ensures Births(entries[1..], born)[i] <= Births(entries[1..], born)[j] {
        assert Births(entries, born)[i + 1] <= Births(entries, born)[j + 1];
      }
      MinScoreFirst(entries[1..], born);
      assert Births(entries, born)[0] <= Births(entries, born)[1];
    }
  }

  /** On one clock the script counts exactly the hits that are in the window. */
  lemma CountedExactly(rules: string -> Rule, offset: int, h: History, e: Eval, born: string -> int, used: set<string>)
    requires Timed(h, 0, e.trueTime) && e.clock == e.trueTime && UniqueMembers(h, born, used)
    requires AfterBirth(Stored(rules, offset, h, e.key))
    ensures var recent := After(AcceptedAt(rules, offset, h, e.key), e.clock - rules(e.key).windowMs);
            && |Counted(rules, offset, h, e)| == |recent|
            && (recent != [] ==> MinScore(Counted(rules, offset, h, e)) == recent[0])
  {
    var times, start := AcceptedAt(rules, offset, h, e.key), e.clock - rules(e.key).windowMs;
    var z := Access(Stored(rules, offset, h, e.key), e.trueTime + offset, e.evict);
    var counted := Counted(rules, offset, h, e);
    HistoryShows(rules, offset, h, e.key, born, used, 0, e.trueTime);
    CountedShows(rules, offset, h, e, born, 0, e.trueTime);
    RemovedMembers(z.entries, start);
    BirthsAt(counted, born);
    forall i | 0 <= i < |counted| ensures counted[i].score == born(counted[i].member) && Births(counted, born)[i] > start {
      assert EntryOk(counted[i], z.expiresAt, h, born, 0, rules(e.key).windowMs, offset, e.trueTime);
      assert counted[i] in z.entries;
    }
    AfterAll(Births(counted, born), start);
    AfterShape(times, start);
    if counted != [] { MinScoreFirst(counted, born); }
  }

  /** No stored score is before the epoch. */
  ghost predicate AfterBirth(z: ZSet) {
    forall e :: e in z.entries ==> e.score >= 0
  }

  lemma {:induction false} ScoresAfterEpoch(rules: string -> Rule, offset: int, h: History, key: string)
    requires AfterEpoch(h)
    ensures AfterBirth(Stored(rules, offset, h, key))
  {
    match h
    case Fresh =>
    case More(earlier, e) =>
      ScoresAfterEpoch(rules, offset, earlier, key);
      var entries := Access(Stored(rules, offset, earlier, key), e.trueTime + offset, e.evict).entries;
      RemovedMembers(entries, e.clock - rules(key).windowMs);
      AddedMembers(RemoveRange(entries, e.clock - rules(key).windowMs), e.clock, e.member);
  }

  lemma {:induction false} AddedMembers(entries: seq<Entry>, score: int, member: string)
    ensures forall x :: x in AddEntry(entries, score, member) ==> x in entries || x == Entry(score, member)
  {
    if entries != [] {
      AddedMembers(entries[1..], score, member);
    }
  }

  /** On one clock the script accepts the hits that the specification accepts. */
  lemma {:induction false} SameLog(rules: string -> Rule, offset: int, h: History, key: string, born: string -> int,
                                   used: set<string>, last: int)
    requires Timed(h, 0, last) && UniqueMembers(h, born, used) && AfterEpoch(h)
    ensures AcceptedAt(rules, offset, h, key) == Log(rules, InProcess(h), key)
    decreases h
  {
    match h
    case Fresh =>
    case More(earlier, e) =>
      SameLog(rules, offset, earlier, key, born, used + {e.member}, e.trueTime);
      if e.key == key {
        ScoresAfterEpoch(rules, offset, earlier, key);
        CountedExactly(rules, offset, earlier, e, born, used + {e.member});
      }
  }

  /** A history on one clock, which shows no time before the epoch, and a run of the
      script that follows it. */
  predicate OneClock(h: History, e: Eval, born: string -> int) {
    && Timed(h, 0, e.trueTime) && e.clock == e.trueTime && e.clock >= 0
    && AfterEpoch(h) && UniqueMembers(h, born, {e.member})
  }

  /** On one clock the script answers every run of every history as the full-history
      specification does, for every rule whose limit is at least one (below that the
      specification's refusal has no reset time and the script's does). */
  lemma ScriptAsExpected(rules: string -> Rule, offset: int, h: History, e: Eval, born: string -> int)
    requires OneClock(h, e, born)
    ensures SharedAnswer(rules, offset, h, e) == Expected(rules, InProcess(h), Call(e.clock, e.key)) <==> rules(e.key).limit >= 1
  {
    SameLog(rules, offset, h, e.key, born, {e.member}, e.trueTime);
    ScoresAfterEpoch(rules, offset, h, e.key);
    CountedExactly(rules, offset, h, e, born, {e.member});
    if rules(e.key).limit < 1 {
      NothingAccepted(rules, InProcess(h), e.key);
    }
  }

  /** The script and the in-process limiter give the same full answer. */
  predicate SameReply(rules: string -> Rule, offset: int, h: History, e: Eval) {
    SharedAnswer(rules, offset, h, e) == Answer(rules, InProcess(h), Call(e.clock, e.key))
  }

  lemma SameReplyPoint(rules: string -> Rule, offset: int, h: History, e: Eval, born: string -> int)
    requires OneClock(h, e, born) && SweepSafe(rules(e.key))
    ensures SameReply(rules, offset, h, e) <==> rules(e.key).limit >= 1
  {
    SameOrder(h, e.trueTime);
    AnswerExpected(rules, InProcess(h), Call(e.clock, e.key));
    ScriptAsExpected(rules, offset, h, e, born);
  }

  /** On one clock the script and the in-process limiter agree on a key at every point
      of every history if and only if the key's limit is at least one and its window
      does not outlast the in-process idle time. */
  lemma ScriptMatchesHit(rules: string -> Rule, offset: int, key: string)
    ensures (forall h: History, e: Eval, born: string -> int ::
               OneClock(h, e, born) && e.key == key ==> SameReply(rules, offset, h, e))
            <==> rules(key).limit >= 1 && SweepSafe(rules(key))
  {
    if SweepSafe(rules(key)) {
      forall h: History, e: Eval, born: string -> int | OneClock(h, e, born) && e.key == key
        ensures SameReply(rules, offset, h, e) <==> rules(key).limit >= 1
      {
        SameReplyPoint(rules, offset, h, e, born);
      }
      assert OneClock(Fresh, Eval(key, 0, 0, "", false), m => 0);
    } else {
      ScriptRemembers(rules, offset, key, 0);
    }
  }

  function Name(n: nat): (r: string)
    ensures |r| == n
  {
    if n == 0 then "" else Name(n - 1) + "m"
  }

  /** A burst in which every hit brings a member of its own. */
  function SharedBurst(n: nat, key: string, at: int): History {
    if n == 0 then Fresh else More(SharedBurst(n - 1, key, at), Eval(key, at, at, Name(n), false))
  }

  lemma {:induction false} SharedBurstIs(n: nat, key: string, at: nat, used: set<string>)
    requires forall m :: m in used ==> |m| == 0 || |m| > n
    ensures InProcess(SharedBurst(n, key, at)) == Burst(n, key, at)
    ensures Timed(SharedBurst(n, key, at), 0, at) && AfterEpoch(SharedBurst(n, key, at))
    ensures UniqueMembers(SharedBurst(n, key, at), m => at, used)
  {
    if n > 0 { SharedBurstIs(n - 1, key, at, used + {Name(n)}); }
  }

  /** Where the in-process limiter has swept a burst away, the script still refuses. */
  lemma ScriptRemembers(rules: string -> Rule, offset: int, key: string, at: nat)
    requires !SweepSafe(rules(key))
    ensures var h := SharedBurst(rules(key).limit, key, at);
            var e := Eval(key, Late(key, at).now, Late(key, at).now, "", false);
            && OneClock(h, e, m => at) && !SharedAnswer(rules, offset, h, e).ok
            && Answer(rules, InProcess(h), Call(e.clock, e.key)).ok
  {
    var n: nat := rules(key).limit;
    var h, late := SharedBurst(n, key, at), Late(key, at);
    SharedBurstIs(n, key, at, {""});
    SweepForgets(rules, key, at);
    ScriptAsExpected(rules, offset, h, Eval(key, late.now, late.now, "", false), m => at);
  }

  lemma {:induction false} NothingAccepted(rules: string -> Rule, run: Run, key: string)
    requires rules(key).limit < 1
    ensures Log(rules, run, key) == []
  {
    match run
    case Start =>
    case Then(earlier, _) => NothingAccepted(rules, earlier, key);
  }
}
