/** The in-process sliding-window limiter (src/lib/rate-limiter.ts:25-116): trimmed
    buckets and an opportunistic sweep, against a specification that remembers
    every accepted hit for ever. Retry-After is section 10.2.3 of RFC 9110. */
module SlidingWindow {
  import opened Options

  datatype Rule = Rule(limit: int, windowMs: int)

  /** `None` stands for the NaN that a refusal yields when no hit is on record,
      which takes a limit below one. */
  datatype Result = Result(
    ok: bool, limit: int, remaining: int, retryAfterSeconds: Option<int>, resetAt: Option<int>)

  const SWEEP_EVERY_MS := 60_000
  const IDLE_TTL_MS := 600_000

  function Max(a: int, b: int): int { if a < b then b else a }

  /** The hits later than `start`, in order. */
  function After(hits: seq<int>, start: int): seq<int> {
    if hits == [] then []
    else if hits[0] > start then [hits[0]] + After(hits[1..], start)
    else After(hits[1..], start)
  }

  function RetryAfterSeconds(resetAt: int, now: int): int {
    Max(1, (resetAt - now + 999) / 1000)
  }

  function Refuse(rule: Rule, resetAt: Option<int>, now: int): Result {
    Result(false, rule.limit, 0,
           if resetAt.Some? then Some(RetryAfterSeconds(resetAt.value, now)) else None, resetAt)
  }

  /** The answer to a hit at `now` when `recent` are the accepted hits still in the window. */
  function Verdict(rule: Rule, recent: seq<int>, now: int): Result {
    if |recent| >= rule.limit then
      Refuse(rule, if recent == [] then None else Some(recent[0] + rule.windowMs), now)
    else Result(true, rule.limit, rule.limit - |recent| - 1, Some(0), Some(now + rule.windowMs))
  }

  // ------------------------------------------------------------- the limiter

  datatype State = State(buckets: map<string, seq<int>>, lastSweep: int)

  function Bucket(s: State, key: string): seq<int> {
    if key in s.buckets then s.buckets[key] else []
  }

  predicate Idle(hits: seq<int>, now: int) {
    hits == [] || now - hits[|hits| - 1] > IDLE_TTL_MS
  }

  function Swept(s: State, now: int): State {
    State(map k | k in s.buckets && !Idle(s.buckets[k], now) :: s.buckets[k], now)
  }

  function MaybeSwept(s: State, now: int): State {
    if now - s.lastSweep > SWEEP_EVERY_MS then Swept(s, now) else s
  }

  function HitState(s: State, now: int, key: string, rule: Rule): State {
    var s1 := MaybeSwept(s, now);
    s1.(buckets := s1.buckets[key := NextBucket(rule, Bucket(s1, key), now)])
  }

  /** The bucket after a hit: trimmed to the window, with the hit if it is let in. */
  function NextBucket(rule: Rule, bucket: seq<int>, now: int): seq<int> {
    var recent := After(bucket, now - rule.windowMs);
    if |recent| >= rule.limit then recent else recent + [now]
  }

  function HitResult(s: State, now: int, key: string, rule: Rule): Result {
    Verdict(rule, After(Bucket(MaybeSwept(s, now), key), now - rule.windowMs), now)
  }

  function PeekResult(s: State, now: int, key: string, rule: Rule): Result {
    PeekVerdict(rule, After(Bucket(s, key), now - rule.windowMs), now)
  }

  function PeekVerdict(rule: Rule, recent: seq<int>, now: int): Result {
    var blocked := |recent| >= rule.limit;
    var resetAt := if |recent| > 0 then recent[0] + rule.windowMs else now;
    Result(!blocked, rule.limit, Max(0, rule.limit - |recent|),
           Some(if blocked then RetryAfterSeconds(resetAt, now) else 0), Some(resetAt))
  }

  class RateLimiter {
    var buckets: map<string, seq<int>>
    var lastSweep: int

    function Abstract(): State
      reads this
    {
      State(buckets, lastSweep)
    }

    constructor ()
      ensures Abstract() == State(map[], 0)
    {
      buckets := map[];
      lastSweep := 0;
    }

    method Sweep(now: int)
      modifies this
      ensures Abstract() == Swept(old(Abstract()), now)
      ensures lastSweep == now && forall k :: k in buckets ==> k in old(buckets) && buckets[k] == old(buckets)[k]
      ensures forall k :: k in old(buckets) ==>
                (k in buckets <==> var hits := old(buckets)[k]; hits != [] && now - hits[|hits| - 1] <= 10 * 60_000)
    {
      ghost var before := buckets;
      var left := buckets.Keys;
      while left != {}
        invariant left <= before.Keys
        invariant buckets == map k | k in before && (k in left || !Idle(before[k], now)) :: before[k]
        decreases left
      {
        var key :| key in left;
        if Idle(buckets[key], now) {
          buckets := buckets - {key};
        }
        left := left - {key};
      }
      lastSweep := now;
    }

    method Hit(now: int, key: string, rule: Rule) returns (r: Result)
      modifies this
      ensures Abstract() == HitState(old(Abstract()), now, key, rule)
      ensures r == HitResult(old(Abstract()), now, key, rule)
      ensures key in buckets && forall i :: 0 <= i < |buckets[key]| ==> buckets[key][i] > now - rule.windowMs || (r.ok && buckets[key][i] == now)
      ensures now - old(lastSweep) <= 60_000 ==> lastSweep == old(lastSweep)
      ensures now - old(lastSweep) <= 60_000 ==>
                forall k :: k != key ==> (k in buckets <==> k in old(buckets)) && (k in buckets ==> buckets[k] == old(buckets)[k])
      ensures now - old(lastSweep) > 60_000 ==> lastSweep == now
      ensures now - old(lastSweep) > 60_000 ==>
                forall k :: k != key && k in old(buckets) ==>
                  (k in buckets <==> var hits := old(buckets)[k]; hits != [] && now - hits[|hits| - 1] <= 10 * 60_000)
    {
      if now - lastSweep > SWEEP_EVERY_MS {
        Sweep(now);
      }
      var recent := After(if key in buckets then buckets[key] else [], now - rule.windowMs);
      AfterShape(if key in buckets then buckets[key] else [], now - rule.windowMs);
      if |recent| >= rule.limit {
        buckets := buckets[key := recent];
        var resetAt := if recent == [] then None else Some(recent[0] + rule.windowMs);
        return Refuse(rule, resetAt, now);
      }
      recent := recent + [now];
      buckets := buckets[key := recent];
      r := Result(true, rule.limit, rule.limit - |recent|, Some(0), Some(now + rule.windowMs));
    }

    method Peek(now: int, key: string, rule: Rule) returns (r: Result)
      ensures r == PeekResult(Abstract(), now, key, rule)
    {
      var recent := After(if key in buckets then buckets[key] else [], now - rule.windowMs);
      var blocked := |recent| >= rule.limit;
      var resetAt := if |recent| > 0 then recent[0] + rule.windowMs else now;
      r := Result(!blocked, rule.limit, Max(0, rule.limit - |recent|),
                  Some(if blocked then RetryAfterSeconds(resetAt, now) else 0), Some(resetAt));
    }
  }

  // ---------------------------------------------------- runs, and what they mean

  datatype Call = Call(now: int, key: string)

  /** Hits in the order in which they came. */
  datatype Run = Start | Then(earlier: Run, call: Call)

  /** The clock never runs backwards, up to time `last`. */
  predicate Ordered(run: Run, last: int) {
    match run
    case Start => true
    case Then(earlier, c) => c.now <= last && Ordered(earlier, c.now)
  }

  /** The limiter after a run, one rule per key. */
  function StateAfter(rules: string -> Rule, run: Run): State {
    match run
    case Start => State(map[], 0)
    case Then(earlier, c) => HitState(StateAfter(rules, earlier), c.now, c.key, rules(c.key))
  }

  /** What the limiter answers to `c` after a run. */
  function Answer(rules: string -> Rule, run: Run, c: Call): Result {
    HitResult(StateAfter(rules, run), c.now, c.key, rules(c.key))
  }

  /** Specification: every accepted hit of a key, never forgotten. A hit is accepted
      when fewer than `limit` accepted hits lie in the window that ends with it. */
  function Log(rules: string -> Rule, run: Run, key: string): seq<int> {
    match run
    case Start => []
    case Then(earlier, c) =>
      if c.key == key then NextLog(rules(key), Log(rules, earlier, key), c.now) else Log(rules, earlier, key)
  }

  function NextLog(rule: Rule, log: seq<int>, now: int): seq<int> {
    if |After(log, now - rule.windowMs)| < rule.limit then log + [now] else log
  }

  /** What the specification answers to `c` after a run. */
  function Expected(rules: string -> Rule, run: Run, c: Call): Result {
    Verdict(rules(c.key), After(Log(rules, run, c.key), WindowStart(rules, c)), c.now)
  }

  function WindowStart(rules: string -> Rule, c: Call): int {
    c.now - rules(c.key).windowMs
  }

  /** The limiter answers every run of hits as the specification does. */
  ghost predicate Faithful(rules: string -> Rule) {
    forall run: Run, c: Call :: Ordered(run, c.now) ==> Answer(rules, run, c) == Expected(rules, run, c)
  }

  /** The sweep cannot forget a hit that is still in the rule's window. */
  predicate SweepSafe(rule: Rule) {
    rule.limit >= 1 ==> rule.windowMs <= IDLE_TTL_MS + 1
  }

  // ------------------------------------------------------------ about windows

  ghost predicate Ascending(s: seq<int>) {
    forall i, j :: 0 <= i < j < |s| ==> s[i] <= s[j]
  }

  ghost predicate AtMost(s: seq<int>, x: int) {
    forall i :: 0 <= i < |s| ==> s[i] <= x
  }

  lemma {:induction false} AfterAppend(a: seq<int>, b: seq<int>, x: int)
    ensures After(a + b, x) == After(a, x) + After(b, x)
  {
    if a == [] {
      assert a + b == b;
    } else {
      assert (a + b)[0] == a[0] && (a + b)[1..] == a[1..] + b;
      AfterAppend(a[1..], b, x);
      assert [a[0]] + After(a[1..], x) + After(b, x) == [a[0]] + (After(a[1..], x) + After(b, x));
    }
  }

  lemma {:induction false} AfterAfter(a: seq<int>, x: int, y: int)
    requires x <= y
    ensures After(After(a, x), y) == After(a, y)
  {
    if a != [] {
      AfterAfter(a[1..], x, y);
      if a[0] > x {
        assert After(a, x)[1..] == After(a[1..], x);
      }
    }
  }

  lemma {:induction false} AfterNone(a: seq<int>, x: int)
    requires AtMost(a, x)
    ensures After(a, x) == []
  {
    if a != [] {
      assert forall i :: 0 <= i < |a[1..]| ==> a[1..][i] == a[i + 1];
      AfterNone(a[1..], x);
    }
  }

  lemma {:induction false} AfterAll(a: seq<int>, x: int)
    requires forall i :: 0 <= i < |a| ==> a[i] > x
    ensures After(a, x) == a
  {
    if a != [] { AfterAll(a[1..], x); }
  }

  lemma {:induction false} AfterShape(a: seq<int>, x: int)
    ensures |After(a, x)| <= |a|
    ensures forall i :: 0 <= i < |After(a, x)| ==> After(a, x)[i] > x && After(a, x)[i] in a
    ensures Ascending(a) ==> Ascending(After(a, x))
  {
    if a != [] {
      AfterShape(a[1..], x);
      if Ascending(a) {
        assert Ascending(a[1..]);
        var t := After(a[1..], x);
        forall j | 0 <= j < |t| ensures a[0] <= t[j] {
          var k :| 0 <= k < |a[1..]| && a[1..][k] == t[j];
          assert a[0] <= a[k + 1];
        }
      }
    }
  }

  lemma AfterAtMost(a: seq<int>, x: int, last: int)
    requires AtMost(a, last)
    ensures AtMost(After(a, x), last)
  {
    AfterShape(a, x);
  }

  // ------------------------------------------------------------ the refinement

  /** A bucket and the log of its key show the same hits to every window that can
      still be asked for after time `last`. */
  ghost predicate KeyOk(rule: Rule, bucket: seq<int>, log: seq<int>, last: int) {
    && (forall start :: start >= last - rule.windowMs ==> After(bucket, start) == After(log, start))
    && Ascending(bucket) && AtMost(bucket, last)
    && Ascending(log) && AtMost(log, last)
    && (rule.limit < 1 ==> bucket == [] && log == [])
  }

  lemma SweepKeeps(rule: Rule, s: State, key: string, log: seq<int>, last: int, now: int)
    requires KeyOk(rule, Bucket(s, key), log, last) && last <= now && SweepSafe(rule)
    ensures KeyOk(rule, Bucket(MaybeSwept(s, now), key), log, now)
  {
    var b := Bucket(s, key);
    if Bucket(MaybeSwept(s, now), key) != b {
      assert Idle(b, now) && b != [];
      assert AtMost(b, b[|b| - 1]);
      forall start | start >= now - rule.windowMs ensures After(b, start) == [] {
        AfterNone(b, start);
      }
    }
  }

  lemma NextSeenAlike(rule: Rule, bucket: seq<int>, log: seq<int>, now: int, start: int)
    requires After(bucket, now - rule.windowMs) == After(log, now - rule.windowMs)
    requires After(bucket, start) == After(log, start) && start >= now - rule.windowMs
    ensures After(NextBucket(rule, bucket, now), start) == After(NextLog(rule, log, now), start)
  {
    AfterAfter(bucket, now - rule.windowMs, start);
    AfterAppend(After(bucket, now - rule.windowMs), [now], start);
    AfterAppend(log, [now], start);
  }

  lemma HitKeeps(rule: Rule, bucket: seq<int>, log: seq<int>, now: int)
    requires KeyOk(rule, bucket, log, now)
    ensures After(bucket, now - rule.windowMs) == After(log, now - rule.windowMs)
    ensures KeyOk(rule, NextBucket(rule, bucket, now), NextLog(rule, log, now), now)
  {
    AfterShape(bucket, now - rule.windowMs);
    AfterAtMost(bucket, now - rule.windowMs, now);
    forall start | start >= now - rule.windowMs
      ensures After(NextBucket(rule, bucket, now), start) == After(NextLog(rule, log, now), start)
    {
      NextSeenAlike(rule, bucket, log, now, start);
    }
  }

  lemma StepKeeps(rules: string -> Rule, s: State, c: Call, key: string, log: seq<int>)
    requires KeyOk(rules(key), Bucket(s, key), log, c.now) && SweepSafe(rules(key))
    ensures KeyOk(rules(key), Bucket(HitState(s, c.now, c.key, rules(c.key)), key),
                  if c.key == key then NextLog(rules(key), log, c.now) else log, c.now)
  {
    SweepKeeps(rules(key), s, key, log, c.now, c.now);
    if c.key == key {
      HitKeeps(rules(key), Bucket(MaybeSwept(s, c.now), key), log, c.now);
    }
  }

  lemma {:induction false} RunKeeps(rules: string -> Rule, run: Run, key: string, last: int)
    requires Ordered(run, last) && SweepSafe(rules(key))
    ensures KeyOk(rules(key), Bucket(StateAfter(rules, run), key), Log(rules, run, key), last)
  {
    match run
    case Start =>
    case Then(earlier, c) =>
      RunKeeps(rules, earlier, key, c.now);
      StepKeeps(rules, StateAfter(rules, earlier), c, key, Log(rules, earlier, key));
  }

  /** The window that a hit looks at holds what the window on the log holds. */
  lemma SeenAlike(rules: string -> Rule, run: Run, c: Call)
    requires Ordered(run, c.now) && SweepSafe(rules(c.key))
    ensures After(Bucket(MaybeSwept(StateAfter(rules, run), c.now), c.key), WindowStart(rules, c)) ==
            After(Log(rules, run, c.key), WindowStart(rules, c))
  {
    RunKeeps(rules, run, c.key, c.now);
    SweptAlike(rules(c.key), StateAfter(rules, run), c.key, Log(rules, run, c.key), c.now);
  }

  lemma AnswerExpected(rules: string -> Rule, run: Run, c: Call)
    requires Ordered(run, c.now) && SweepSafe(rules(c.key))
    ensures Answer(rules, run, c) == Expected(rules, run, c)
  {
    SeenAlike(rules, run, c);
  }

  lemma {:induction false} LogInOrder(rules: string -> Rule, run: Run, key: string, last: int)
    requires Ordered(run, last)
    ensures AtMost(Log(rules, run, key), last) && Ascending(Log(rules, run, key))
  {
    match run
    case Start =>
    case Then(earlier, c) => LogInOrder(rules, earlier, key, c.now);
  }

  lemma SweptAlike(rule: Rule, s: State, key: string, log: seq<int>, now: int)
    requires KeyOk(rule, Bucket(s, key), log, now) && SweepSafe(rule)
    ensures After(Bucket(MaybeSwept(s, now), key), now - rule.windowMs) == After(log, now - rule.windowMs)
  {
    SweepKeeps(rule, s, key, log, now, now);
  }

  // ----------------------------------------------- where the sweep forgets hits

  /** `n` hits of a key at one instant. */
  function Burst(n: nat, key: string, at: int): Run {
    if n == 0 then Start else Then(Burst(n - 1, key, at), Call(at, key))
  }

  function Copies(n: nat, at: int): (s: seq<int>)
    ensures |s| == n && forall i :: 0 <= i < n ==> s[i] == at
  {
    if n == 0 then [] else Copies(n - 1, at) + [at]
  }

  lemma {:induction false} AfterBurst(rules: string -> Rule, key: string, n: nat, at: nat)
    requires n <= rules(key).limit && rules(key).windowMs > 0
    ensures Bucket(StateAfter(rules, Burst(n, key, at)), key) == Copies(n, at)
    ensures 0 <= StateAfter(rules, Burst(n, key, at)).lastSweep <= at
    ensures Log(rules, Burst(n, key, at), key) == Copies(n, at)
    ensures Ordered(Burst(n, key, at), at)
  {
    if n > 0 {
      AfterBurst(rules, key, n - 1, at);
      var s := StateAfter(rules, Burst(n - 1, key, at));
      OneMoreCopy(rules(key), n, at);
    }
  }

  lemma OneMoreCopy(rule: Rule, n: nat, at: int)
    requires 0 < n <= rule.limit && rule.windowMs > 0
    ensures NextBucket(rule, Copies(n - 1, at), at) == Copies(n, at) == NextLog(rule, Copies(n - 1, at), at)
  {
    AfterAll(Copies(n - 1, at), at - rule.windowMs);
  }

  /** The first hit after the sweep that forgets the burst. */
  function Late(key: string, at: int): Call {
    Call(at + IDLE_TTL_MS + 1, key)
  }

  /** The key's bucket is `n` hits at one instant, none of them swept yet. */
  predicate Burstful(s: State, key: string, n: nat, at: int) {
    Bucket(s, key) == Copies(n, at) && 0 <= s.lastSweep <= at
  }

  /** A hit at the same instant is refused and leaves the full bucket as it is. */
  lemma RefusedHitKeeps(rule: Rule, s: State, key: string, n: nat, at: int)
    requires Burstful(s, key, n, at) && n == rule.limit && rule.windowMs > 0
    ensures Burstful(HitState(s, at, key, rule), key, n, at)
  {
    assert Bucket(MaybeSwept(s, at), key) == Copies(n, at);
    AfterAll(Copies(n, at), at - rule.windowMs);
  }

  /** Its answer names the instant at which the burst leaves the window. */
  lemma RefusalNames(rule: Rule, s: State, key: string, n: nat, at: int)
    requires Burstful(s, key, n, at) && 1 <= n == rule.limit && rule.windowMs > 0
    ensures HitResult(s, at, key, rule) == Refuse(rule, Some(at + rule.windowMs), at)
  {
    assert Bucket(MaybeSwept(s, at), key) == Copies(n, at);
    AfterAll(Copies(n, at), at - rule.windowMs);
  }

  /** The late hit sweeps the key empty, and is let in. */
  lemma LateHitLetIn(rule: Rule, s: State, key: string, n: nat, at: int)
    requires Burstful(s, key, n, at) && rule.limit >= 1
    ensures HitResult(s, Late(key, at).now, key, rule).ok
  {
    assert Idle(Copies(n, at), Late(key, at).now);
    assert Bucket(MaybeSwept(s, Late(key, at).now), key) == [];
  }

  /** A full bucket that has been idle for the sweep's limit is forgotten although
      its hits still fill the window: the next hit is let in, and should not be. */
  lemma SweepForgets(rules: string -> Rule, key: string, at: nat)
    requires !SweepSafe(rules(key))
    ensures var run, c := Burst(rules(key).limit, key, at), Late(key, at);
            Ordered(run, c.now) && Answer(rules, run, c).ok && !Expected(rules, run, c).ok
  {
    var n: nat := rules(key).limit;
    var c := Late(key, at);
    AfterBurst(rules, key, n, at);
    LateHitLetIn(rules(key), StateAfter(rules, Burst(n, key, at)), key, n, at);
    AfterAll(Copies(n, at), c.now - rules(key).windowMs);
  }

  /** The 15-minute registration rule (src/lib/rate-limits.ts:35) is such a rule. */
  lemma RegisterRuleForgets(rules: string -> Rule, key: string)
    requires rules(key) == Rule(5, 15 * 60_000)
    ensures !Faithful(rules)
  {
    SweepForgets(rules, key, 0);
  }

  /** With a clock that never runs backwards and one rule per key, the trimmed and
      swept limiter answers every run exactly as the full history would, if and only
      if no rule's window outlasts the idle time after which a bucket is swept. */
  lemma FaithfulExactly(rules: string -> Rule)
    ensures Faithful(rules) <==> forall key :: SweepSafe(rules(key))
  {
    if forall key :: SweepSafe(rules(key)) {
      forall run: Run, c: Call | Ordered(run, c.now) ensures Answer(rules, run, c) == Expected(rules, run, c) {
        AnswerExpected(rules, run, c);
      }
    } else {
      var key :| !SweepSafe(rules(key));
      SweepForgets(rules, key, 0);
    }
  }

  // ------------------------------------------------------------- the window cap

  /** How many of the hits lie in (lo, hi]. */
  function Between(hits: seq<int>, lo: int, hi: int): nat {
    if hits == [] then 0
    else Between(hits[1..], lo, hi) + if lo < hits[0] <= hi then 1 else 0
  }

  lemma {:induction false} BetweenAppend(a: seq<int>, b: seq<int>, lo: int, hi: int)
    ensures Between(a + b, lo, hi) == Between(a, lo, hi) + Between(b, lo, hi)
  {
    if a == [] {
      assert a + b == b;
    } else {
      BetweenAppend(a[1..], b, lo, hi);
      assert (a + b)[1..] == a[1..] + b;
    }
  }

  /** Hits up to `now` in a window that ends no earlier are the recent ones. */
  lemma {:induction false} BetweenAfter(a: seq<int>, lo: int, start: int, hi: int, now: int)
    requires AtMost(a, now) && start <= lo
    ensures Between(a, lo, hi) <= |After(a, start)|
    ensures start == lo && now <= hi ==> Between(a, lo, hi) == |After(a, start)|
  {
    if a != [] {
      assert forall i :: 0 <= i < |a[1..]| ==> a[1..][i] == a[i + 1];
      BetweenAfter(a[1..], lo, start, hi, now);
    }
  }

  /** Under the specification no window of the rule's length, wherever it lies,
      holds more accepted hits than the limit. */
  lemma {:induction false} LogCap(rules: string -> Rule, run: Run, key: string, hi: int, last: int)
    requires Ordered(run, last)
    ensures Between(Log(rules, run, key), hi - rules(key).windowMs, hi) <= Max(0, rules(key).limit)
    ensures AtMost(Log(rules, run, key), last)
  {
    match run
    case Start =>
    case Then(earlier, c) =>
      var log, w := Log(rules, earlier, key), rules(key).windowMs;
      LogCap(rules, earlier, key, hi, c.now);
      if Log(rules, run, key) != log {
        BetweenAppend(log, [c.now], hi - w, hi);
        if c.now <= hi {
          BetweenAfter(log, hi - w, c.now - w, hi, c.now);
        }
      }
  }

  /** The times of the hits of a key that were let in. */
  function LetIn(ok: (Run, Call) -> bool, run: Run, key: string): seq<int> {
    match run
    case Start => []
    case Then(earlier, c) =>
      var before := LetIn(ok, earlier, key);
      if c.key == key && ok(earlier, c) then before + [c.now] else before
  }

  function Decisions(rules: string -> Rule): (Run, Call) -> bool {
    (run: Run, c: Call) => Answer(rules, run, c).ok
  }

  /** The times of the hits that the limiter accepted. */
  function Accepted(rules: string -> Rule, run: Run, key: string): seq<int> {
    LetIn(Decisions(rules), run, key)
  }

  /** There is room on the log. */
  predicate Room(rules: string -> Rule, run: Run, c: Call) {
    |After(Log(rules, run, c.key), WindowStart(rules, c))| < rules(c.key).limit
  }

  lemma {:induction false} LetInIsLog(rules: string -> Rule, ok: (Run, Call) -> bool, run: Run, key: string, last: int)
    requires Ordered(run, last)
    requires forall r: Run, c: Call :: Ordered(r, c.now) && c.key == key ==> (ok(r, c) <==> Room(rules, r, c))
    ensures LetIn(ok, run, key) == Log(rules, run, key)
  {
    match run
    case Start =>
    case Then(earlier, c) => LetInIsLog(rules, ok, earlier, key, c.now);
  }

  lemma AcceptedIsLog(rules: string -> Rule, run: Run, key: string, last: int)
    requires Ordered(run, last) && SweepSafe(rules(key))
    ensures Accepted(rules, run, key) == Log(rules, run, key)
  {
    forall r: Run, c: Call | Ordered(r, c.now) && c.key == key ensures Decisions(rules)(r, c) <==> Room(rules, r, c) {
      AcceptsLogged(rules, r, c);
    }
    LetInIsLog(rules, Decisions(rules), run, key, last);
  }

  lemma AcceptsLogged(rules: string -> Rule, run: Run, c: Call)
    requires Ordered(run, c.now) && SweepSafe(rules(c.key))
    ensures Answer(rules, run, c).ok <==> Room(rules, run, c)
  {
    AnswerExpected(rules, run, c);
    RoomOf(rules(c.key), After(Log(rules, run, c.key), WindowStart(rules, c)), c.now, Answer(rules, run, c));
  }

  lemma RoomOf(rule: Rule, recent: seq<int>, now: int, answer: Result)
    requires answer == Verdict(rule, recent, now)
    ensures answer.ok <==> |recent| < rule.limit
  {
  }

  /** A hit is accepted exactly when fewer than `limit` accepted hits lie in the
      half-open window that ends with it. */
  predicate RoomDecides(rules: string -> Rule, run: Run, c: Call) {
    Answer(rules, run, c).ok <==>
    Between(Accepted(rules, run, c.key), WindowStart(rules, c), c.now) < rules(c.key).limit
  }

  lemma RoomDecidesHit(rules: string -> Rule, run: Run, c: Call)
    requires Ordered(run, c.now) && SweepSafe(rules(c.key))
    ensures RoomDecides(rules, run, c)
  {
    var start := WindowStart(rules, c);
    AnswerExpected(rules, run, c);
    AcceptedIsLog(rules, run, c.key, c.now);
    LogInOrder(rules, run, c.key, c.now);
    BetweenAfter(Log(rules, run, c.key), start, start, c.now, c.now);
    RoomOf(rules(c.key), After(Log(rules, run, c.key), start), c.now, Answer(rules, run, c));
  }

  /** Room in the window decides every hit of a key, in every run, if and only if the
      key's window does not outlast the idle time. */
  lemma AcceptsIffRoomInWindow(rules: string -> Rule, key: string)
    ensures (forall run: Run, c: Call :: Ordered(run, c.now) && c.key == key ==> RoomDecides(rules, run, c))
            <==> SweepSafe(rules(key))
  {
    if SweepSafe(rules(key)) {
      forall run: Run, c: Call | Ordered(run, c.now) && c.key == key ensures RoomDecides(rules, run, c) {
        RoomDecidesHit(rules, run, c);
      }
    } else {
      var run, c := Burst(rules(key).limit, key, 0), Late(key, 0);
      OneTooMany(rules, key, 0);
      assert Ordered(run, c.now) && c.key == key && !RoomDecides(rules, run, c);
    }
  }

  function Total(rules: string -> Rule, runs: seq<Run>, key: string, lo: int, hi: int): nat {
    if runs == [] then 0 else Total(rules, runs[1..], key, lo, hi) + Between(Accepted(rules, runs[0], key), lo, hi)
  }

  lemma OneInstanceCap(rules: string -> Rule, run: Run, key: string, hi: int, last: int)
    requires SweepSafe(rules(key)) && Ordered(run, last)
    ensures Between(Accepted(rules, run, key), hi - rules(key).windowMs, hi) <= Max(0, rules(key).limit)
  {
    LogCap(rules, run, key, hi, last);
    AcceptedIsLog(rules, run, key, last);
  }

  predicate AllOrdered(runs: seq<Run>, last: int) {
    forall i :: 0 <= i < |runs| ==> Ordered(runs[i], last)
  }

  /** N instances together let through at most N times the limit in the window that
      ends at `hi`. */
  predicate Capped(rules: string -> Rule, runs: seq<Run>, key: string, hi: int) {
    Total(rules, runs, key, hi - rules(key).windowMs, hi) <= |runs| * Max(0, rules(key).limit)
  }

  lemma {:induction false} InstancesCapped(rules: string -> Rule, runs: seq<Run>, key: string, hi: int, last: int)
    requires SweepSafe(rules(key)) && AllOrdered(runs, last)
    ensures Capped(rules, runs, key, hi)
  {
    if runs != [] {
      InstancesCapped(rules, runs[1..], key, hi, last);
      OneInstanceCap(rules, runs[0], key, hi, last);
      OneTimesMore(|runs[1..]|, Max(0, rules(key).limit));
    }
  }

  /** Any number of instances that each count alone, on clocks that never run
      backwards, keep the cap in every window if and only if the key's window does not
      outlast the idle time. */
  lemma InstancesCap(rules: string -> Rule, key: string)
    ensures (forall runs: seq<Run>, hi: int, last: int :: AllOrdered(runs, last) ==> Capped(rules, runs, key, hi))
            <==> SweepSafe(rules(key))
  {
    if SweepSafe(rules(key)) {
      forall runs: seq<Run>, hi: int, last: int | AllOrdered(runs, last) ensures Capped(rules, runs, key, hi) {
        InstancesCapped(rules, runs, key, hi, last);
      }
    } else {
      OneTooMany(rules, key, 0);
      var c := Late(key, 0);
      var run := Then(Burst(rules(key).limit, key, 0), c);
      assert AllOrdered([run], c.now);
      assert !Capped(rules, [run], key, c.now);
    }
  }

  /** The hit that the sweep lets in is one more than the window takes. */
  lemma OneTooMany(rules: string -> Rule, key: string, at: nat)
    requires !SweepSafe(rules(key))
    ensures var run, c := Burst(rules(key).limit, key, at), Late(key, at);
            && Ordered(run, c.now) && Ordered(Then(run, c), c.now) && Answer(rules, run, c).ok
            && Between(Accepted(rules, run, key), WindowStart(rules, c), c.now) == rules(key).limit
            && Between(Accepted(rules, Then(run, c), key), WindowStart(rules, c), c.now) == rules(key).limit + 1
  {
    SweepForgets(rules, key, at);
    BurstAccepted(rules, key, rules(key).limit, at, Late(key, at));
    BurstFills(rules(key).limit, at, WindowStart(rules, Late(key, at)), Late(key, at).now);
  }

  lemma BurstFills(n: nat, at: int, lo: int, hi: int)
    requires lo < at < hi
    ensures Between(Copies(n, at), lo, hi) == n && Between(Copies(n, at) + [hi], lo, hi) == n + 1
  {
    AllBetween(n, at, lo, hi);
    BetweenAppend(Copies(n, at), [hi], lo, hi);
  }

  lemma BurstAccepted(rules: string -> Rule, key: string, n: nat, at: nat, c: Call)
    requires n <= rules(key).limit && rules(key).windowMs > 0
    requires Answer(rules, Burst(n, key, at), c).ok && c.key == key
    ensures Accepted(rules, Burst(n, key, at), key) == Copies(n, at)
    ensures Accepted(rules, Then(Burst(n, key, at), c), key) == Copies(n, at) + [c.now]
  {
    forall m: nat | m < n ensures Decisions(rules)(Burst(m, key, at), Call(at, key)) {
      BurstAnswer(rules, key, m, at);
    }
    LetInBurst(Decisions(rules), key, n, at);
  }

  lemma {:induction false} LetInBurst(ok: (Run, Call) -> bool, key: string, n: nat, at: nat)
    requires forall m: nat :: m < n ==> ok(Burst(m, key, at), Call(at, key))
    ensures LetIn(ok, Burst(n, key, at), key) == Copies(n, at)
  {
    if n > 0 { LetInBurst(ok, key, n - 1, at); }
  }

  lemma BurstAnswer(rules: string -> Rule, key: string, n: nat, at: nat)
    requires n < rules(key).limit && rules(key).windowMs > 0
    ensures Answer(rules, Burst(n, key, at), Call(at, key)).ok
  {
    AfterBurst(rules, key, n, at);
    AfterAll(Copies(n, at), at - rules(key).windowMs);
  }

  lemma {:induction false} AllBetween(n: nat, at: int, lo: int, hi: int)
    requires lo < at <= hi
    ensures Between(Copies(n, at), lo, hi) == n
  {
    if n > 0 {
      AllBetween(n - 1, at, lo, hi);
      BetweenAppend(Copies(n - 1, at), [at], lo, hi);
    }
  }

  lemma OneTimesMore(n: nat, m: nat)
    ensures (n + 1) * m == n * m + m
  {
  }

  // -------------------------------------------------------------- reset times

  /** The first hit still in the window decides when there is room again. */
  lemma ResetOnLog(rule: Rule, log: seq<int>, now: int, later: int)
    requires Ascending(log) && AtMost(log, now) && now <= later && rule.limit >= 1
    requires |After(log, now - rule.windowMs)| == rule.limit
    ensures |After(log, later - rule.windowMs)| < rule.limit <==>
            later >= After(log, now - rule.windowMs)[0] + rule.windowMs
  {
    var w := rule.windowMs;
    var recent := After(log, now - w);
    AfterShape(log, now - w);
    AfterAfter(log, now - w, later - w);
    FirstDecides(recent, later - w);
  }

  /** In order of time, some hit of a window leaves it if and only if the first does. */
  lemma FirstDecides(recent: seq<int>, start: int)
    requires Ascending(recent) && recent != []
    ensures |After(recent, start)| < |recent| <==> recent[0] <= start
  {
    if recent[0] > start { AfterAll(recent, start); } else { AfterShape(recent[1..], start); }
  }

  /** The refusal at `now` names the time from which a retry gets in, and the least
      whole number of seconds that reaches it. */
  predicate ResetOk(refusal: Result, now: int, retry: Result, later: int) {
    && refusal.resetAt.Some? && refusal.retryAfterSeconds.Some?
    && (retry.ok <==> later >= refusal.resetAt.value)
    && now + (refusal.retryAfterSeconds.value - 1) * 1000 < refusal.resetAt.value
    && refusal.resetAt.value <= now + refusal.retryAfterSeconds.value * 1000
  }

  lemma ResetVerdict(rule: Rule, log: seq<int>, now: int, later: int)
    requires Ascending(log) && AtMost(log, now) && now <= later && rule.limit >= 1
    requires |After(log, now - rule.windowMs)| == rule.limit
    ensures ResetOk(Verdict(rule, After(log, now - rule.windowMs), now), now,
                    Verdict(rule, After(log, later - rule.windowMs), later), later)
  {
    ResetOnLog(rule, log, now, later);
    AfterShape(log, now - rule.windowMs);
  }

  /** `longer` extends `run` by hits none of which is accepted for the key. */
  predicate OnlyRefusals(rules: string -> Rule, run: Run, longer: Run, key: string) {
    longer == run ||
    (longer.Then? && OnlyRefusals(rules, run, longer.earlier, key)
     && (longer.call.key == key ==> !Answer(rules, longer.earlier, longer.call).ok))
  }

  lemma {:induction false} RefusalsKeepLog(rules: string -> Rule, run: Run, longer: Run, key: string, last: int)
    requires Ordered(longer, last) && SweepSafe(rules(key)) && OnlyRefusals(rules, run, longer, key)
    ensures Log(rules, longer, key) == Log(rules, run, key)
    decreases longer
  {
    if longer != run {
      RefusalsKeepLog(rules, run, longer.earlier, key, longer.call.now);
      if longer.call.key == key { RefusalKeepsLog(rules, longer.earlier, longer.call); }
    }
  }

  lemma {:induction false} OrderedPart(rules: string -> Rule, run: Run, longer: Run, key: string, last: int)
    requires Ordered(longer, last) && OnlyRefusals(rules, run, longer, key)
    ensures Ordered(run, last)
    decreases longer
  {
    if longer != run {
      OrderedPart(rules, run, longer.earlier, key, longer.call.now);
    }
  }

  lemma RefusalKeepsLog(rules: string -> Rule, run: Run, c: Call)
    requires Ordered(run, c.now) && SweepSafe(rules(c.key)) && !Answer(rules, run, c).ok
    ensures Log(rules, Then(run, c), c.key) == Log(rules, run, c.key)
  {
    AnswerExpected(rules, run, c);
  }

  /** The retry is decided on the log as the refusal found it. */
  lemma AnswerAtRetry(rules: string -> Rule, run: Run, c: Call, longer: Run, retry: Call)
    requires Ordered(longer, retry.now) && retry.key == c.key && SweepSafe(rules(c.key)) && !Answer(rules, run, c).ok
    requires OnlyRefusals(rules, Then(run, c), longer, c.key)
    ensures Ordered(run, c.now) && c.now <= retry.now
    ensures Answer(rules, longer, retry) == Expected(rules, run, retry)
  {
    OrderedPart(rules, Then(run, c), longer, c.key, retry.now);
    RefusalKeepsLog(rules, run, c);
    RefusalsKeepLog(rules, Then(run, c), longer, c.key, retry.now);
    AnswerExpected(rules, longer, retry);
  }

  lemma ResetOfRefusal(rules: string -> Rule, run: Run, c: Call, longer: Run, retry: Call)
    requires Ordered(longer, retry.now) && retry.key == c.key && rules(c.key).limit >= 1 && SweepSafe(rules(c.key))
    requires !Answer(rules, run, c).ok && OnlyRefusals(rules, Then(run, c), longer, c.key)
    ensures ResetOk(Answer(rules, run, c), c.now, Answer(rules, longer, retry), retry.now)
  {
    AnswerAtRetry(rules, run, c, longer, retry);
    AnswerExpected(rules, run, c);
    ResetExpected(rules, run, c, retry, Answer(rules, run, c), Answer(rules, longer, retry));
  }

  /** A hit of the key was refused, and a retry comes when nothing but refusals of the
      key, and anything on other keys, has happened since. */
  predicate Retried(rules: string -> Rule, key: string, run: Run, c: Call, longer: Run, retry: Call) {
    && c.key == key == retry.key && Ordered(longer, retry.now)
    && !Answer(rules, run, c).ok && OnlyRefusals(rules, Then(run, c), longer, key)
  }

  /** `resetAt` is exact: after a refusal, whatever happens on other keys and however
      often the key is refused again, a retry is accepted if and only if it comes at
      `resetAt` or later, and `retryAfterSeconds` is the least whole number of seconds
      that is long enough. This holds of all runs if and only if the key's limit is at
      least one and its window does not outlast the idle time. */
  lemma ResetAtExact(rules: string -> Rule, key: string)
    ensures (forall run, c, longer, retry :: Retried(rules, key, run, c, longer, retry) ==>
               ResetOk(Answer(rules, run, c), c.now, Answer(rules, longer, retry), retry.now))
            <==> rules(key).limit >= 1 && SweepSafe(rules(key))
  {
    if rules(key).limit < 1 {
      var c := Call(0, key);
      RoomOf(rules(key), [], 0, Answer(rules, Start, c));
      assert OnlyRefusals(rules, Then(Start, c), Then(Start, c), key);
      assert Retried(rules, key, Start, c, Then(Start, c), c);
    } else if SweepSafe(rules(key)) {
      forall run, c, longer, retry | Retried(rules, key, run, c, longer, retry)
        ensures ResetOk(Answer(rules, run, c), c.now, Answer(rules, longer, retry), retry.now)
      {
        ResetOfRefusal(rules, run, c, longer, retry);
      }
    } else {
      EarlyRetry(rules, key, 0);
    }
  }

  /** One hit more than the limit at one instant is refused. */
  lemma BurstRefused(rules: string -> Rule, key: string, n: nat, at: nat)
    requires 1 <= n == rules(key).limit && rules(key).windowMs > 0
    ensures Answer(rules, Burst(n, key, at), Call(at, key)) == Refuse(rules(key), Some(at + rules(key).windowMs), at)
  {
    AfterBurst(rules, key, n, at);
    RefusalNames(rules(key), StateAfter(rules, Burst(n, key, at)), key, n, at);
  }

  lemma BurstRetried(rules: string -> Rule, key: string, n: nat, at: nat)
    requires 1 <= n == rules(key).limit && rules(key).windowMs > 0
    ensures var run, c := Burst(n, key, at), Call(at, key);
            Retried(rules, key, run, c, Then(run, c), Late(key, at))
  {
    BurstRefused(rules, key, n, at);
    AfterBurst(rules, key, n, at);
  }

  lemma LateRetryLetIn(rules: string -> Rule, key: string, n: nat, at: nat)
    requires 1 <= n == rules(key).limit && rules(key).windowMs > 0
    ensures Answer(rules, Then(Burst(n, key, at), Call(at, key)), Late(key, at)).ok
  {
    var s := StateAfter(rules, Burst(n, key, at));
    AfterBurst(rules, key, n, at);
    RefusedHitKeeps(rules(key), s, key, n, at);
    LateHitLetIn(rules(key), HitState(s, at, key, rules(key)), key, n, at);
  }

  /** A retry that the sweep lets in before `resetAt`. */
  lemma EarlyRetry(rules: string -> Rule, key: string, at: nat)
    requires !SweepSafe(rules(key))
    ensures var run, c := Burst(rules(key).limit, key, at), Call(at, key);
            && Retried(rules, key, run, c, Then(run, c), Late(key, at))
            && Answer(rules, run, c).resetAt == Some(at + rules(key).windowMs)
            && Answer(rules, Then(run, c), Late(key, at)).ok && Late(key, at).now < at + rules(key).windowMs
  {
    BurstRetried(rules, key, rules(key).limit, at);
    BurstRefused(rules, key, rules(key).limit, at);
    LateRetryLetIn(rules, key, rules(key).limit, at);
  }

  lemma ResetExpected(rules: string -> Rule, run: Run, c: Call, retry: Call, first: Result, second: Result)
    requires Ordered(run, c.now) && c.now <= retry.now && retry.key == c.key && rules(c.key).limit >= 1
    requires first == Expected(rules, run, c) && second == Expected(rules, run, retry) && !first.ok
    ensures ResetOk(first, c.now, second, retry.now)
  {
    LogInOrder(rules, run, c.key, c.now);
    RefusedWindow(rules, run, c.now, c.key);
    ResetAnswers(rules(c.key), Log(rules, run, c.key), c.now, retry.now, first, second);
  }

  lemma ResetAnswers(rule: Rule, log: seq<int>, now: int, later: int, refusal: Result, retry: Result)
    requires Ascending(log) && AtMost(log, now) && now <= later && rule.limit >= 1
    requires |After(log, now - rule.windowMs)| == rule.limit
    requires refusal == Verdict(rule, After(log, now - rule.windowMs), now)
    requires retry == Verdict(rule, After(log, later - rule.windowMs), later)
    ensures ResetOk(refusal, now, retry, later)
  {
    ResetVerdict(rule, log, now, later);
  }

  /** At a refusal the window holds exactly `limit` hits. */
  lemma RefusedWindow(rules: string -> Rule, run: Run, now: int, key: string)
    requires Ordered(run, now) && rules(key).limit >= 1
    requires !Verdict(rules(key), After(Log(rules, run, key), now - rules(key).windowMs), now).ok
    ensures |After(Log(rules, run, key), now - rules(key).windowMs)| == rules(key).limit
  {
    var start := now - rules(key).windowMs;
    LogCap(rules, run, key, now, now);
    BetweenAfter(Log(rules, run, key), start, start, now, now);
  }

  /** The same decision, one more slot left before an accepted hit than after it, and
      in every other respect the same refusal. */
  predicate Foretells(peek: Result, hit: Result) {
    && peek.ok == hit.ok
    && peek.limit == hit.limit
    && (hit.ok ==> peek.remaining == hit.remaining + 1)
    && (!hit.ok && hit.limit >= 1 ==> peek == hit)
  }

  /** What a look at the key of `c` says after a run, and what it says on the log. */
  function Look(rules: string -> Rule, run: Run, c: Call): Result {
    PeekResult(StateAfter(rules, run), c.now, c.key, rules(c.key))
  }

  function ExpectedLook(rules: string -> Rule, run: Run, c: Call): Result {
    PeekVerdict(rules(c.key), After(Log(rules, run, c.key), WindowStart(rules, c)), c.now)
  }

  lemma LookForetellsHit(rules: string -> Rule, run: Run, c: Call)
    requires Ordered(run, c.now) && SweepSafe(rules(c.key))
    ensures Foretells(Look(rules, run, c), Answer(rules, run, c))
  {
    AnswerExpected(rules, run, c);
    LookExpected(rules, run, c);
  }

  /** A look without a hit foretells the hit at the same instant, in every run, if and
      only if the key's window does not outlast the idle time: a look does not sweep. */
  lemma PeekForetellsHit(rules: string -> Rule, key: string)
    ensures (forall run: Run, c: Call :: Ordered(run, c.now) && c.key == key ==>
               Foretells(Look(rules, run, c), Answer(rules, run, c)))
            <==> SweepSafe(rules(key))
  {
    if SweepSafe(rules(key)) {
      forall run: Run, c: Call | Ordered(run, c.now) && c.key == key
        ensures Foretells(Look(rules, run, c), Answer(rules, run, c))
      {
        LookForetellsHit(rules, run, c);
      }
    } else {
      LookMisleads(rules, key, 0);
    }
  }

  /** The look still sees the burst that the hit sweeps away. */
  lemma LookMisleads(rules: string -> Rule, key: string, at: nat)
    requires !SweepSafe(rules(key))
    ensures var run, c := Burst(rules(key).limit, key, at), Late(key, at);
            Ordered(run, c.now) && !Look(rules, run, c).ok && Answer(rules, run, c).ok
  {
    SweepForgets(rules, key, at);
    AfterBurst(rules, key, rules(key).limit, at);
    AfterAll(Copies(rules(key).limit, at), WindowStart(rules, Late(key, at)));
  }

  lemma LookExpected(rules: string -> Rule, run: Run, c: Call)
    requires Ordered(run, c.now) && SweepSafe(rules(c.key))
    ensures Look(rules, run, c) == ExpectedLook(rules, run, c)
  {
    RunKeeps(rules, run, c.key, c.now);
  }

  /** What an answer says when `recent` are the accepted hits in the window. */
  predicate HitSays(rule: Rule, recent: seq<int>, now: int, r: Result) {
    && r.limit == rule.limit
    && (r.ok ==> r.remaining == rule.limit - |recent| - 1 && r.retryAfterSeconds == Some(0)
                 && r.resetAt == Some(now + rule.windowMs))
    && (!r.ok ==> r.remaining == 0 && r.resetAt == if recent == [] then None else Some(recent[0] + rule.windowMs))
  }

  predicate LookSays(rule: Rule, recent: seq<int>, now: int, r: Result) {
    && r.limit == rule.limit && (r.ok <==> |recent| < rule.limit)
    && r.remaining == (if r.ok then rule.limit - |recent| else 0) && (r.ok ==> r.retryAfterSeconds == Some(0))
    && r.resetAt == Some(if recent == [] then now else recent[0] + rule.windowMs)
  }

  lemma VerdictSays(rule: Rule, recent: seq<int>, now: int)
    ensures HitSays(rule, recent, now, Verdict(rule, recent, now))
    ensures LookSays(rule, recent, now, PeekVerdict(rule, recent, now))
  {
  }

  /** A hit and a look say how many hits are left of the limit, given those that were
      accepted in the window, and when the window opens: a whole window from now after an
      accepted hit, and when the oldest hit leaves it otherwise. */
  lemma AnswerSays(rules: string -> Rule, run: Run, c: Call)
    requires Ordered(run, c.now) && SweepSafe(rules(c.key))
    ensures var recent := After(Accepted(rules, run, c.key), WindowStart(rules, c));
            && HitSays(rules(c.key), recent, c.now, Answer(rules, run, c))
            && LookSays(rules(c.key), recent, c.now, Look(rules, run, c))
  {
    AnswerExpected(rules, run, c);
    LookExpected(rules, run, c);
    AcceptedIsLog(rules, run, c.key, c.now);
    VerdictSays(rules(c.key), After(Log(rules, run, c.key), WindowStart(rules, c)), c.now);
  }
}
