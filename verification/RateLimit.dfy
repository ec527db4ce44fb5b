// The per-IP request counter in Redis: INCR, then EXPIRE NX, as two separate
// commands that those of other requests may come between.
module RateLimit {
  import opened Common

  const WINDOW_MS := 60000
  const MAX_HITS_PER_WINDOW := 30

  // A key: its count, when it expires if it does, and when it was created.
  datatype Counter = Counter(count: nat, expireAt: Option<int>, born: int)

  datatype Redis = Redis(keys: map<string, Counter>, now: int)

  datatype Command = Tick(ms: nat) | Incr(ip: string) | ExpireNx(ip: string)

  predicate Live(r: Redis, ip: string) {
    ip in r.keys && (r.keys[ip].expireAt.None? || r.now < r.keys[ip].expireAt.value)
  }

  // What INCR leaves and returns: an expired key is a new key.
  function Counted(r: Redis, ip: string): Counter {
    if Live(r, ip) then r.keys[ip].(count := r.keys[ip].count + 1) else Counter(1, None, r.now)
  }

  predicate Allowed(count: nat) { count <= MAX_HITS_PER_WINDOW }

  function Step(r: Redis, c: Command): Redis {
    match c
    case Tick(ms) => r.(now := r.now + ms)
    case Incr(ip) => r.(keys := r.keys[ip := Counted(r, ip)])
    case ExpireNx(ip) =>
      if Live(r, ip) && r.keys[ip].expireAt.None?
      then r.(keys := r.keys[ip := r.keys[ip].(expireAt := Some(r.now + WINDOW_MS))])
      else r
  }

  function After(r: Redis, cs: seq<Command>): Redis {
    if cs == [] then r else Step(After(r, cs[..|cs| - 1]), cs[|cs| - 1])
  }

  // Is this command an admitted request of this client in this interval?
  predicate Admits(r: Redis, c: Command, ip: string, lo: int, hi: int) {
    c == Incr(ip) && Allowed(Counted(r, ip).count) && lo <= r.now <= hi
  }

  // How many requests of a client a run admits from lo to hi, both included.
  function Admitted(r: Redis, cs: seq<Command>, ip: string, lo: int, hi: int): nat {
    if cs == [] then 0
    else
      var init := cs[..|cs| - 1];
      Admitted(r, init, ip, lo, hi) + if Admits(After(r, init), cs[|cs| - 1], ip, lo, hi) then 1 else 0
  }

  // ---- The bound ---------------------------------------------------------------

  // A key never expires less than a window after it was created.
  ghost predicate Sound(r: Redis) {
    forall ip <- r.keys ::
      r.keys[ip].born <= r.now && (r.keys[ip].expireAt.Some? ==> r.keys[ip].expireAt.value >= r.keys[ip].born + WINDOW_MS)
  }

  lemma StepKeepsSound(r: Redis, c: Command)
    requires Sound(r)
    ensures Sound(Step(r, c)) && r.now <= Step(r, c).now
  {
  }

  // The admissions in an interval so far all belong to the current key, or to
  // it and the key before it; after that the interval is over.
  ghost predicate TwoLifetimes(r: Redis, ip: string, n: nat, lo: int, hi: int) {
    || n == 0
    || (&& ip in r.keys
        && var k := r.keys[ip];
           || (n <= Min(k.count, MAX_HITS_PER_WINDOW) && r.now >= lo && (k.expireAt.Some? ==> k.expireAt.value > lo))
           || (n <= MAX_HITS_PER_WINDOW + Min(k.count, MAX_HITS_PER_WINDOW) && k.born > lo))
    || (n <= 2 * MAX_HITS_PER_WINDOW && r.now > hi)
  }

  lemma StepKeepsTwoLifetimes(r: Redis, c: Command, ip: string, n: nat, lo: int, hi: int)
    requires Sound(r) && TwoLifetimes(r, ip, n, lo, hi) && hi - lo <= WINDOW_MS
    ensures TwoLifetimes(Step(r, c), ip, n + if Admits(r, c, ip, lo, hi) then 1 else 0, lo, hi)
  {
  }

  lemma {:induction false} RunKeepsTwoLifetimes(r: Redis, cs: seq<Command>, ip: string, lo: int, hi: int)
    requires Sound(r) && hi - lo <= WINDOW_MS
    ensures Sound(After(r, cs)) && TwoLifetimes(After(r, cs), ip, Admitted(r, cs, ip, lo, hi), lo, hi)
  {
    if cs != [] {
      var init := cs[..|cs| - 1];
      RunKeepsTwoLifetimes(r, init, ip, lo, hi);
      StepKeepsSound(After(r, init), cs[|cs| - 1]);
      StepKeepsTwoLifetimes(After(r, init), cs[|cs| - 1], ip, Admitted(r, init, ip, lo, hi), lo, hi);
    }
  }

  // Any interval of 60 seconds, end points included, admits at most 60 requests
  // of one client, wherever windows fall and however commands interleave.
  lemma RateBound(r: Redis, cs: seq<Command>, ip: string, lo: int)
    requires Sound(r)
    ensures Admitted(r, cs, ip, lo, lo + 60000) <= 60
  {
    RunKeepsTwoLifetimes(r, cs, ip, lo, lo + WINDOW_MS);
  }

  // ---- One key lifetime ----------------------------------------------------------

  // The key of this client was not replaced anywhere in the run.
  ghost predicate SameKey(r: Redis, cs: seq<Command>, ip: string) {
    forall i | 0 <= i <= |cs| :: Live(After(r, cs[..i]), ip)
  }

  lemma StepInLifetime(r: Redis, c: Command, ip: string, lo: int, hi: int)
    requires Live(r, ip) && Live(Step(r, c), ip)
    ensures var k := r.keys[ip]; var k' := Step(r, c).keys[ip]; var n := if Admits(r, c, ip, lo, hi) then 1 else 0;
      && k.count <= k'.count && k'.born == k.born
      && Min(k.count, MAX_HITS_PER_WINDOW) + n <= Min(k'.count, MAX_HITS_PER_WINDOW)
      && (lo <= r.now <= hi ==> Min(k.count, MAX_HITS_PER_WINDOW) + n == Min(k'.count, MAX_HITS_PER_WINDOW))
  {
  }

  // While one key lives it admits at most 30 requests, those before the run
  // included, and exactly the first 30: rejected requests only raise the count.
  lemma {:induction false} LifetimeBound(r: Redis, cs: seq<Command>, ip: string, lo: int, hi: int)
    requires Live(r, ip) && Live(After(r, cs), ip) && SameKey(r, cs, ip)
    ensures var k := r.keys[ip]; var k' := After(r, cs).keys[ip]; var n := Admitted(r, cs, ip, lo, hi);
      && k.count <= k'.count && k'.born == k.born
      && Min(k.count, MAX_HITS_PER_WINDOW) + n <= Min(k'.count, MAX_HITS_PER_WINDOW)
      && ((forall i | 0 <= i < |cs| :: lo <= After(r, cs[..i]).now <= hi)
          ==> Min(k.count, MAX_HITS_PER_WINDOW) + n == Min(k'.count, MAX_HITS_PER_WINDOW))
  {
    hide Step, Admits, Live;
    if cs != [] {
      var n := |cs| - 1;
      var init := cs[..n];
      assert forall i | 0 <= i <= n :: init[..i] == cs[..i];
      assert SameKey(r, init, ip) by {
        forall i | 0 <= i <= n ensures Live(After(r, init[..i]), ip) { assert Live(After(r, cs[..i]), ip); }
      }
      assert Live(After(r, init), ip);
      LifetimeBound(r, init, ip, lo, hi);
      StepInLifetime(After(r, init), cs[n], ip, lo, hi);
    }
  }

  // An expiry, once set, is not moved by later requests.
  lemma ExpiryIsFixed(r: Redis, c: Command, ip: string)
    requires Live(r, ip) && r.keys[ip].expireAt.Some?
    ensures ip in Step(r, c).keys && (Live(Step(r, c), ip) ==> Step(r, c).keys[ip].expireAt == r.keys[ip].expireAt)
  {
  }

  // ---- The bound is attained -----------------------------------------------------

  function Burst(ip: string, n: nat): seq<Command> {
    if n == 0 then [] else Burst(ip, n - 1) + [Incr(ip)]
  }

  lemma Extend(r: Redis, cs: seq<Command>, c: Command, ip: string, lo: int, hi: int)
    ensures After(r, cs + [c]) == Step(After(r, cs), c)
    ensures Admitted(r, cs + [c], ip, lo, hi)
         == Admitted(r, cs, ip, lo, hi) + if Admits(After(r, cs), c, ip, lo, hi) then 1 else 0
  {
    assert (cs + [c])[..|cs|] == cs;
  }

  lemma {:induction false} BurstAdmits(r: Redis, pre: seq<Command>, ip: string, n: nat, lo: int, hi: int)
    requires Live(After(r, pre), ip) && lo <= After(r, pre).now <= hi
    requires After(r, pre).keys[ip].count + n <= MAX_HITS_PER_WINDOW
    ensures var r' := After(r, pre); var r'' := After(r, pre + Burst(ip, n));
      && r''.now == r'.now && ip in r''.keys
      && r''.keys[ip] == r'.keys[ip].(count := r'.keys[ip].count + n)
      && Admitted(r, pre + Burst(ip, n), ip, lo, hi) == Admitted(r, pre, ip, lo, hi) + n
  {
    hide After, Admitted;
    if n == 0 {
      assert pre + Burst(ip, n) == pre;
    } else {
      BurstAdmits(r, pre, ip, n - 1, lo, hi);
      Extend(r, pre + Burst(ip, n - 1), Incr(ip), ip, lo, hi);
      assert pre + Burst(ip, n - 1) + [Incr(ip)] == pre + Burst(ip, n);
    }
  }

  // A full burst of 30 on a key that does not exist or has expired.
  lemma FullBurst(r: Redis, pre: seq<Command>, ip: string, lo: int, hi: int)
    requires !Live(After(r, pre), ip) && lo <= After(r, pre).now <= hi
    ensures var cs := pre + [Incr(ip)] + [ExpireNx(ip)] + Burst(ip, 29); var r' := After(r, cs);
      && r'.now == After(r, pre).now && ip in r'.keys
      && r'.keys[ip] == Counter(30, Some(r'.now + WINDOW_MS), r'.now)
      && Admitted(r, cs, ip, lo, hi) == Admitted(r, pre, ip, lo, hi) + MAX_HITS_PER_WINDOW
  {
    hide After, Admitted, Burst;
    Extend(r, pre, Incr(ip), ip, lo, hi);
    Extend(r, pre + [Incr(ip)], ExpireNx(ip), ip, lo, hi);
    BurstAdmits(r, pre + [Incr(ip)] + [ExpireNx(ip)], ip, 29, lo, hi);
  }

  // 30 requests at once, a minute's pause, and 30 more: the closed interval holds
  // 60, both its end points included.
  lemma SixtyInAMinute(ip: string)
    ensures var full := [] + [Incr(ip)] + [ExpireNx(ip)] + Burst(ip, 29) + [Tick(60000)];
      Admitted(Redis(map[], 0), full + [Incr(ip)] + [ExpireNx(ip)] + Burst(ip, 29), ip, 0, 60000) == 60
  {
    var r := Redis(map[], 0);
    assert After(r, []) == r && Admitted(r, [], ip, 0, WINDOW_MS) == 0;
    hide After, Admitted, Burst;
    FullBurst(r, [], ip, 0, WINDOW_MS);
    Extend(r, [] + [Incr(ip)] + [ExpireNx(ip)] + Burst(ip, 29), Tick(WINDOW_MS), ip, 0, WINDOW_MS);
    FullBurst(r, [] + [Incr(ip)] + [ExpireNx(ip)] + Burst(ip, 29) + [Tick(WINDOW_MS)], ip, 0, WINDOW_MS);
  }

  // ---- A sliding window ------------------------------------------------------------

  // The windows of 60 seconds without their last instant: a sliding window admits
  // at most 30 in any of them.
  const LAST_MS := WINDOW_MS - 1

  lemma KeyRunsOut(r: Redis, ip: string)
    requires ip in r.keys && r.keys[ip].expireAt.Some? && r.keys[ip].expireAt.value >= r.now
    ensures var r' := Step(r, Tick(r.keys[ip].expireAt.value - r.now));
      !Live(r', ip) && r'.now == r.keys[ip].expireAt.value
  {
  }

  // A pause until the key expires, and a full burst.
  lemma ExpireAndBurst(r: Redis, pre: seq<Command>, ip: string, ms: nat, lo: int, hi: int)
    requires ip in After(r, pre).keys && After(r, pre).keys[ip].expireAt == Some(After(r, pre).now + ms)
    requires lo <= After(r, pre).now + ms <= hi
    ensures Admitted(r, pre + [Tick(ms)] + [Incr(ip)] + [ExpireNx(ip)] + Burst(ip, 29), ip, lo, hi)
         == Admitted(r, pre, ip, lo, hi) + MAX_HITS_PER_WINDOW
  {
    hide After, Admitted, Burst, Step, Live;
    KeyRunsOut(After(r, pre), ip);
    Extend(r, pre, Tick(ms), ip, lo, hi);
    FullBurst(r, pre + [Tick(ms)], ip, lo, hi);
  }

  // One request, and 29 more just before its key expires.
  function AlmostLate(ip: string): seq<Command> {
    [] + [Incr(ip)] + [ExpireNx(ip)] + [Tick(LAST_MS)] + Burst(ip, 29)
  }

  lemma TwentyNineLate(ip: string)
    ensures var r := After(Redis(map[], 0), AlmostLate(ip));
      r.now == LAST_MS && ip in r.keys && r.keys[ip].expireAt == Some(WINDOW_MS)
    ensures Admitted(Redis(map[], 0), AlmostLate(ip), ip, LAST_MS, WINDOW_MS) == 29
  {
    var r := Redis(map[], 0);
    assert After(r, []) == r && Admitted(r, [], ip, LAST_MS, WINDOW_MS) == 0;
    hide After, Admitted, Burst;
    Extend(r, [], Incr(ip), ip, LAST_MS, WINDOW_MS);
    Extend(r, [] + [Incr(ip)], ExpireNx(ip), ip, LAST_MS, WINDOW_MS);
    Extend(r, [] + [Incr(ip)] + [ExpireNx(ip)], Tick(LAST_MS), ip, LAST_MS, WINDOW_MS);
    BurstAdmits(r, [] + [Incr(ip)] + [ExpireNx(ip)] + [Tick(LAST_MS)], ip, 29, LAST_MS, WINDOW_MS);
  }

  // 30 follow under a new key a millisecond later: 59 within two instants.
  lemma FiftyNineAtOnce(ip: string)
    ensures Admitted(Redis(map[], 0), AlmostLate(ip) + [Tick(1)] + [Incr(ip)] + [ExpireNx(ip)] + Burst(ip, 29),
                     ip, 59999, 60000) == 59
  {
    hide AlmostLate, After, Admitted, Burst;
    TwentyNineLate(ip);
    ExpireAndBurst(Redis(map[], 0), AlmostLate(ip), ip, 1, LAST_MS, WINDOW_MS);
  }

  // The key still admits requests, and its window ends within 60 seconds.
  predicate Straddles(r: Redis, ip: string) {
    && Live(r, ip) && r.keys[ip].count < MAX_HITS_PER_WINDOW
    && r.keys[ip].expireAt.Some? && r.keys[ip].expireAt.value <= r.now + LAST_MS
  }

  // The admissions so far belong to one key that outlasts the interval; or there
  // are none yet, and the current key will give none; or the interval is over.
  ghost predicate OneLifetime(r: Redis, ip: string, n: nat, lo: int) {
    && r.now >= lo && n <= MAX_HITS_PER_WINDOW
    && (|| r.now > lo + LAST_MS
        || (n == 0 && (Live(r, ip) ==> r.keys[ip].count >= MAX_HITS_PER_WINDOW))
        || (&& ip in r.keys && n <= r.keys[ip].count
            && (r.keys[ip].expireAt.Some? ==> r.keys[ip].expireAt.value > lo + LAST_MS)))
  }

  lemma StepKeepsOneLifetime(r: Redis, c: Command, ip: string, n: nat, lo: int)
    requires OneLifetime(r, ip, n, lo)
    ensures OneLifetime(Step(r, c), ip, n + if Admits(r, c, ip, lo, lo + LAST_MS) then 1 else 0, lo)
  {
  }

  lemma {:induction false} RunKeepsOneLifetime(r: Redis, cs: seq<Command>, ip: string)
    requires !Straddles(r, ip)
    ensures OneLifetime(After(r, cs), ip, Admitted(r, cs, ip, r.now, r.now + LAST_MS), r.now)
  {
    if cs != [] {
      var init := cs[..|cs| - 1];
      RunKeepsOneLifetime(r, init, ip);
      StepKeepsOneLifetime(After(r, init), cs[|cs| - 1], ip, Admitted(r, init, ip, r.now, r.now + LAST_MS), r.now);
    }
  }

  // What is left of this key's window, a pause until it ends, and a full burst.
  function Rest(r: Redis, ip: string): seq<Command>
    requires Straddles(r, ip)
  {
    [] + Burst(ip, MAX_HITS_PER_WINDOW - r.keys[ip].count) + [Tick(r.keys[ip].expireAt.value - r.now)]
      + [Incr(ip)] + [ExpireNx(ip)] + Burst(ip, 29)
  }

  lemma UseUp(r: Redis, ip: string, n: nat, hi: int)
    requires Live(r, ip) && r.keys[ip].count + n <= MAX_HITS_PER_WINDOW && r.now <= hi
    ensures var r' := After(r, [] + Burst(ip, n));
      r'.now == r.now && ip in r'.keys && r'.keys[ip].expireAt == r.keys[ip].expireAt
    ensures Admitted(r, [] + Burst(ip, n), ip, r.now, hi) == n
  {
    assert After(r, []) == r && Admitted(r, [], ip, r.now, hi) == 0;
    hide After, Admitted, Burst, Live;
    BurstAdmits(r, [], ip, n, r.now, hi);
  }

  lemma StraddlingAdmitsMore(r: Redis, ip: string)
    requires Straddles(r, ip)
    ensures Admitted(r, Rest(r, ip), ip, r.now, r.now + LAST_MS) == 2 * MAX_HITS_PER_WINDOW - r.keys[ip].count
  {
    hide After, Admitted, Burst;
    var left := MAX_HITS_PER_WINDOW - r.keys[ip].count;
    UseUp(r, ip, left, r.now + LAST_MS);
    ExpireAndBurst(r, [] + Burst(ip, left), ip, r.keys[ip].expireAt.value - r.now, r.now, r.now + LAST_MS);
  }

  ghost predicate KeepsWindow(r: Redis, cs: seq<Command>, ip: string) {
    Admitted(r, cs, ip, r.now, r.now + 59999) <= 30
  }

  // The next 60 seconds stay within a sliding window's 30, whatever is requested,
  // exactly when the client's key is not about to expire with requests left.
  lemma SlidingIff(r: Redis, ip: string)
    ensures (forall cs :: KeepsWindow(r, cs, ip)) <==> !Straddles(r, ip)
  {
    if Straddles(r, ip) {
      StraddlingAdmitsMore(r, ip);
      assert !KeepsWindow(r, Rest(r, ip), ip);
    } else {
      forall cs ensures KeepsWindow(r, cs, ip) {
        RunKeepsOneLifetime(r, cs, ip);
      }
    }
  }

  // A key exists from its first request on.
  ghost predicate Positive(r: Redis) { forall ip <- r.keys :: r.keys[ip].count >= 1 }

  // The admissions in an interval: of a key made in it; of one made before it,
  // whose first request came before; or of such a key and its successor.
  ghost predicate AllButOne(r: Redis, ip: string, n: nat, lo: int) {
    || n == 0
    || (n <= 59 && r.now > lo + LAST_MS)
    || (&& ip in r.keys && r.now >= lo
        && var k := r.keys[ip]; var hits := Min(k.count, MAX_HITS_PER_WINDOW);
           || (k.born < lo && n <= hits - 1)
           || (k.born >= lo && n <= 29 + hits))
  }

  lemma StepKeepsAllButOne(r: Redis, c: Command, ip: string, n: nat, lo: int)
    requires Sound(r) && Positive(r) && AllButOne(r, ip, n, lo)
    ensures AllButOne(Step(r, c), ip, n + if Admits(r, c, ip, lo, lo + LAST_MS) then 1 else 0, lo)
    ensures Positive(Step(r, c))
  {
  }

  lemma {:induction false} RunKeepsAllButOne(r: Redis, cs: seq<Command>, ip: string, lo: int)
    requires Sound(r) && Positive(r)
    ensures Sound(After(r, cs)) && Positive(After(r, cs))
    ensures AllButOne(After(r, cs), ip, Admitted(r, cs, ip, lo, lo + LAST_MS), lo)
  {
    if cs != [] {
      var init := cs[..|cs| - 1];
      RunKeepsAllButOne(r, init, ip, lo);
      StepKeepsSound(After(r, init), cs[|cs| - 1]);
      StepKeepsAllButOne(After(r, init), cs[|cs| - 1], ip, Admitted(r, init, ip, lo, lo + LAST_MS), lo);
    }
  }

  // In no run does any of these windows hold more than 59.
  lemma HalfOpenBound(r: Redis, cs: seq<Command>, ip: string, lo: int)
    requires Sound(r) && Positive(r)
    ensures Admitted(r, cs, ip, lo, lo + 59999) <= 59
  {
    RunKeepsAllButOne(r, cs, ip, lo);
  }

  // ---- Which client --------------------------------------------------------------

  // The address a request is counted under. With n trusted proxies it is the
  // entry before the last n, or the first when there are too few.
  function ClientIp(hops: int, forwarded: seq<string>, peer: Option<string>): string {
    if hops > 0 && forwarded != [] then
      if |forwarded| > hops then forwarded[|forwarded| - hops - 1] else forwarded[0]
    else if peer.Some? then peer.value
    else "unknown"
  }

  // Entries a client puts in front of what its proxies append change nothing.
  lemma PrefixIsIgnored(forged: seq<string>, client: string, proxies: seq<string>, peer: Option<string>)
    requires proxies != []
    ensures ClientIp(|proxies|, forged + [client] + proxies, peer) == client
  {
  }

  // Without a trusted proxy the header is not looked at: the peer is the client.
  lemma HeaderIsIgnored(hops: int, forwarded: seq<string>, peer: Option<string>)
    requires hops <= 0 || forwarded == []
    ensures ClientIp(hops, forwarded, peer) == match peer case Some(address) => address case None => "unknown"
  {
  }

  // With more trusted proxies than entries the leftmost one is the client.
  lemma LeftmostIsClient(hops: int, forwarded: seq<string>, peer: Option<string>)
    requires 0 < |forwarded| <= hops
    ensures ClientIp(hops, forwarded, peer) == forwarded[0]
  {
  }

  // ---- The check as it runs --------------------------------------------------------

  class RateLimiter {
    var redis: Redis
    var reachable: bool

    constructor ()
      ensures redis == Redis(map[], 0) && reachable
    {
      redis, reachable := Redis(map[], 0), true;
    }

    // One request whose two commands nothing comes between. It fails open.
    method Check(hops: int, forwarded: seq<string>, peer: Option<string>) returns (allowed: bool, count: nat)
      modifies this
      ensures reachable == old(reachable)
      ensures !reachable ==> allowed && count == 0 && redis == old(redis)
      ensures reachable ==> var ip := ClientIp(hops, forwarded, peer);
        && redis == Step(Step(old(redis), Incr(ip)), ExpireNx(ip))
        && count == Counted(old(redis), ip).count && (allowed <==> count <= 30)
        && (hops <= 0 && peer.Some? ==> ip == peer.value)
        && (forall other :: other != ip ==> (other in redis.keys <==> other in old(redis).keys))
        && (forall other <- old(redis).keys :: other != ip ==> redis.keys[other] == old(redis).keys[other])
        && (Live(old(redis), ip) ==> count == old(redis).keys[ip].count + 1)
        && (!Live(old(redis), ip) ==> count == 1 && allowed && redis.keys[ip].expireAt == Some(redis.now + WINDOW_MS))
    {
      var ip := ClientIp(hops, forwarded, peer);
      if !reachable { return true, 0; }
      redis := Step(redis, Incr(ip));
      count := redis.keys[ip].count;
      redis := Step(redis, ExpireNx(ip));
      if count > MAX_HITS_PER_WINDOW { return false, count; }
      return true, count;
    }
  }
}
