/** The per-IP limiter (src/api.rs): fixed windows of one second in a bounded table, with the clock as a parameter. */
module RateLimiter {
  /** In ticks, the clock's resolution. */
  const SECOND: nat := 1_000_000_000
  const MAX_IP_ENTRIES: nat := 100_000

  type Ip(==) = nat

  /** Requests counted in the current window, and when the window opened. */
  datatype Entry = Entry(count: nat, start: nat)

  type Entries = map<Ip, Entry>

  datatype Call = Check(ip: Ip, now: nat) | Cleanup(now: nat)

  function Elapsed(start: nat, now: nat): nat {
    if now < start then 0 else now - start
  }

  /** One request against an address's entry, which is fresh when the address is new. */
  ghost function Count(limit: nat, e: Entry, now: nat): (Entry, bool) {
    if Elapsed(e.start, now) >= SECOND then (Entry(1, now), true)
    else if e.count < limit then (e.(count := e.count + 1), true)
    else (e, false)
  }

  ghost function Step(limit: nat, m: Entries, call: Call): (Entries, bool) {
    match call
    case Check(ip, now) =>
      if |m| >= MAX_IP_ENTRIES && ip !in m then (m, false)
      else
        var (e, allowed) := Count(limit, if ip in m then m[ip] else Entry(0, now), now);
        (m[ip := e], allowed)
    case Cleanup(now) =>
      (map ip | ip in m && Elapsed(m[ip].start, now) < 60 * SECOND :: m[ip], false)
  }

  class IpRateLimiter {
    const limit: nat
    var entries: Entries

    constructor (limit: nat)
      ensures this.limit == limit && entries == map[]
    {
      this.limit := limit;
      entries := map[];
    }

    method CheckIp(ip: Ip, now: nat) returns (allowed: bool)
      modifies this
      ensures (entries, allowed) == Step(limit, old(entries), Check(ip, now))
    {
      if |entries| >= MAX_IP_ENTRIES && ip !in entries {
        return false;
      }
      if ip !in entries {
        entries := entries[ip := Entry(0, now)];
      }
      var entry := entries[ip];
      if Elapsed(entry.start, now) >= SECOND {
        entry := Entry(1, now);
        allowed := true;
      } else if entry.count < limit {
        entry := entry.(count := entry.count + 1);
        allowed := true;
      } else {
        allowed := false;
      }
      entries := entries[ip := entry];
      assert entries == old(entries)[ip := entry];
    }

    method CleanUp(now: nat)
      modifies this
      ensures entries == Step(limit, old(entries), Cleanup(now)).0
    {
      entries := map ip | ip in entries && Elapsed(entries[ip].start, now) < 60 * SECOND :: entries[ip];
    }
  }

  // ---- Histories -----------------------------------------------------------

  ghost function After(limit: nat, h: seq<Call>): Entries {
    if |h| == 0 then map[] else Step(limit, After(limit, h[..|h| - 1]), h[|h| - 1]).0
  }

  ghost predicate Admits(limit: nat, h: seq<Call>)
    requires |h| > 0
  {
    Step(limit, After(limit, h[..|h| - 1]), h[|h| - 1]).1
  }

  ghost predicate Monotone(h: seq<Call>) {
    forall i, j :: 0 <= i < j < |h| ==> h[i].now <= h[j].now
  }

  ghost function Clock(h: seq<Call>): nat {
    if |h| == 0 then 0 else h[|h| - 1].now
  }

  /** How many requests from `ip` made at a time in [lo, hi) were admitted. */
  ghost function Admitted(limit: nat, h: seq<Call>, ip: Ip, lo: int, hi: int): nat {
    if |h| == 0 then 0
    else
      var c := h[|h| - 1];
      Admitted(limit, h[..|h| - 1], ip, lo, hi)
      + if c.Check? && c.ip == ip && lo <= c.now < hi && Admits(limit, h) then 1 else 0
  }

  ghost function AtLeastOne(limit: nat): nat {
    if limit == 0 then 1 else limit
  }

  /** The table never holds more than its cap, whatever happens. */
  lemma {:induction false} TableBounded(limit: nat, h: seq<Call>)
    ensures |After(limit, h)| <= 100_000
    decreases |h|
  {
    if |h| > 0 {
      var m := After(limit, h[..|h| - 1]);
      TableBounded(limit, h[..|h| - 1]);
      match h[|h| - 1] {
        case Check(ip, _) =>
          if ip in m {
            assert After(limit, h).Keys == m.Keys;
          } else if |m| < MAX_IP_ENTRIES {
            assert After(limit, h).Keys == m.Keys + {ip};
          }
        case Cleanup(_) =>
          FewerKeys(After(limit, h).Keys, m.Keys);
      }
    }
  }

  lemma {:induction false} FewerKeys(a: set<Ip>, b: set<Ip>)
    requires a <= b
    ensures |a| <= |b|
  {
    assert b == a + (b - a);
  }

  // ---- The one-second bound ------------------------------------------------

  /** Admissions at or after `lo`. */
  ghost function Since(limit: nat, h: seq<Call>, ip: Ip, lo: int): nat {
    Admitted(limit, h, ip, lo, Clock(h) + 1)
  }

  lemma {:induction false} AdmittedMonotone(limit: nat, h: seq<Call>, ip: Ip, lo: int, lo': int, hi: int, hi': int)
    requires lo <= lo' && hi' <= hi
    ensures Admitted(limit, h, ip, lo', hi') <= Admitted(limit, h, ip, lo, hi)
    decreases |h|
  {
    if |h| > 0 {
      AdmittedMonotone(limit, h[..|h| - 1], ip, lo, lo', hi, hi');
    }
  }

  /** Nothing was admitted after the clock. */
  lemma {:induction false} AdmittedUpToClock(limit: nat, h: seq<Call>, ip: Ip, lo: int, hi: int, hi': int)
    requires Monotone(h) && hi > Clock(h) && hi' > Clock(h)
    ensures Admitted(limit, h, ip, lo, hi) == Admitted(limit, h, ip, lo, hi')
    decreases |h|
  {
    if |h| > 0 {
      AdmittedUpToClock(limit, h[..|h| - 1], ip, lo, hi, hi');
    }
  }

  lemma AdmittedStep(limit: nat, h: seq<Call>, ip: Ip, lo: int, hi: int)
    requires |h| > 0
    ensures
      var c := h[|h| - 1];
      Admitted(limit, h, ip, lo, hi) == Admitted(limit, h[..|h| - 1], ip, lo, hi)
        + if c.Check? && c.ip == ip && lo <= c.now < hi && Admits(limit, h) then 1 else 0
  {
  }

  /** One more call adds at most its own admission. */
  lemma SinceGrows(limit: nat, h: seq<Call>, ip: Ip, lo: int)
    requires Monotone(h) && |h| > 0
    ensures
      var c := h[|h| - 1];
      Since(limit, h, ip, lo) == Since(limit, h[..|h| - 1], ip, lo)
        + if c.Check? && c.ip == ip && lo <= c.now && Admits(limit, h) then 1 else 0
  {
    var before := h[..|h| - 1];
    AdmittedStep(limit, h, ip, lo, Clock(h) + 1);
    AdmittedUpToClock(limit, before, ip, lo, Clock(h) + 1, Clock(before) + 1);
  }

  ghost predicate Records(limit: nat, h: seq<Call>, ip: Ip, e: Entry) {
    && e.start <= Clock(h)
    && e.count <= AtLeastOne(limit)
    && (e.count == 0 ==> limit == 0)
    && Since(limit, h, ip, e.start) == e.count
    && Since(limit, h, ip, e.start + 1) <= (if e.count == 0 then 0 else e.count - 1)
    && Since(limit, h, ip, e.start + SECOND) == 0
    && Since(limit, h, ip, e.start - SECOND + 1) <= e.count + AtLeastOne(limit) - 1
  }

  /** What the entry of an address records about the admissions so far. */
  ghost predicate Tracks(limit: nat, h: seq<Call>, ip: Ip) {
    var m := After(limit, h);
    if ip in m then Records(limit, h, ip, m[ip])
    else
      Since(limit, h, ip, Clock(h) - SECOND + 1) == 0
  }

  /** The entry stays as it is, and nothing is admitted. */
  lemma KeptTracks(limit: nat, h: seq<Call>, g: seq<Call>, ip: Ip)
    requires Tracks(limit, h, ip) && Clock(h) <= Clock(g)
    requires ip in After(limit, h) && ip in After(limit, g) && After(limit, g)[ip] == After(limit, h)[ip]
    requires forall lo :: Since(limit, g, ip, lo) == Since(limit, h, ip, lo)
    ensures Tracks(limit, g, ip)
  {
    SameRecords(limit, h, g, ip, After(limit, h)[ip]);
  }

  lemma SameRecords(limit: nat, h: seq<Call>, g: seq<Call>, ip: Ip, e: Entry)
    requires Records(limit, h, ip, e) && Clock(h) <= Clock(g)
    requires forall lo :: Since(limit, g, ip, lo) == Since(limit, h, ip, lo)
    ensures Records(limit, g, ip, e)
  {
  }

  /** There is no entry any more, and nothing was admitted in the last second. */
  lemma DroppedTracks(limit: nat, h: seq<Call>, g: seq<Call>, ip: Ip, lo: int)
    requires Clock(h) <= Clock(g) && ip !in After(limit, g)
    requires forall lo :: Since(limit, g, ip, lo) == Since(limit, h, ip, lo)
    requires lo <= Clock(g) - SECOND + 1 && Since(limit, h, ip, lo) == 0
    ensures Tracks(limit, g, ip)
  {
    AdmittedMonotone(limit, h, ip, lo, Clock(g) - SECOND + 1, Clock(h) + 1, Clock(h) + 1);
  }

  lemma OtherCallLeaves(limit: nat, h: seq<Call>, ip: Ip)
    requires |h| > 0 && (h[|h| - 1].Cleanup? || h[|h| - 1].ip != ip)
    ensures
      var m, t := After(limit, h[..|h| - 1]), After(limit, h);
      && (ip in t ==> ip in m && t[ip] == m[ip])
      && (ip in m && ip !in t ==> m[ip].start + 60 * SECOND <= h[|h| - 1].now)
  {
  }

  /** A call that is not about `ip` leaves its entry, or drops one older than a minute. */
  lemma OtherCallTracks(limit: nat, h: seq<Call>, ip: Ip)
    requires Monotone(h) && |h| > 0 && Tracks(limit, h[..|h| - 1], ip)
    requires h[|h| - 1].Cleanup? || h[|h| - 1].ip != ip
    ensures Tracks(limit, h, ip)
  {
    var before := h[..|h| - 1];
    var m := After(limit, before);
    forall lo ensures Since(limit, h, ip, lo) == Since(limit, before, ip, lo) {
      SinceGrows(limit, h, ip, lo);
    }
    OtherCallLeaves(limit, h, ip);
    if ip in After(limit, h) {
      KeptTracks(limit, before, h, ip);
    } else {
      DroppedTracks(limit, before, h, ip, if ip in m then m[ip].start + SECOND else Clock(before) - SECOND + 1);
    }
  }

  /** A request that opens a window: nothing else was admitted in it, and the last one had its fill before. */
  lemma WindowOpens(limit: nat, h: seq<Call>, ip: Ip)
    requires Monotone(h) && |h| > 0 && Tracks(limit, h[..|h| - 1], ip)
    requires h[|h| - 1].Check? && h[|h| - 1].ip == ip
    requires
      var m := After(limit, h[..|h| - 1]);
      ip in m && Elapsed(m[ip].start, h[|h| - 1].now) >= SECOND
    ensures Tracks(limit, h, ip)
  {
    var before, now := h[..|h| - 1], h[|h| - 1].now;
    var e := After(limit, before)[ip];
    var bound := Clock(before) + 1;
    SinceGrows(limit, h, ip, now);
    SinceGrows(limit, h, ip, now + 1);
    SinceGrows(limit, h, ip, now + SECOND);
    SinceGrows(limit, h, ip, now - SECOND + 1);
    AdmittedMonotone(limit, before, ip, e.start + SECOND, now, bound, bound);
    AdmittedMonotone(limit, before, ip, e.start + SECOND, now + 1, bound, bound);
    AdmittedMonotone(limit, before, ip, e.start + SECOND, now + SECOND, bound, bound);
    AdmittedMonotone(limit, before, ip, e.start + 1, now - SECOND + 1, bound, bound);
    assert After(limit, h)[ip] == Entry(1, now);
  }

  /** A request from an address without an entry. */
  lemma FirstRequest(limit: nat, h: seq<Call>, ip: Ip)
    requires Monotone(h) && |h| > 0 && Tracks(limit, h[..|h| - 1], ip)
    requires h[|h| - 1].Check? && h[|h| - 1].ip == ip && ip !in After(limit, h[..|h| - 1])
    ensures Tracks(limit, h, ip)
  {
    var now := h[|h| - 1].now;
    FirstSince(limit, h, ip, now);
    FirstSince(limit, h, ip, now + 1);
    FirstSince(limit, h, ip, now + SECOND);
    FirstSince(limit, h, ip, now - SECOND + 1);
  }

  lemma FirstSince(limit: nat, h: seq<Call>, ip: Ip, lo: int)
    requires Monotone(h) && |h| > 0 && Tracks(limit, h[..|h| - 1], ip)
    requires h[|h| - 1].Check? && h[|h| - 1].ip == ip && ip !in After(limit, h[..|h| - 1])
    requires lo >= h[|h| - 1].now - SECOND + 1
    ensures Since(limit, h, ip, lo) == if lo <= h[|h| - 1].now && Admits(limit, h) then 1 else 0
  {
    var before := h[..|h| - 1];
    SinceGrows(limit, h, ip, lo);
    SinceShrinks(limit, before, ip, Clock(before) - SECOND + 1, lo);
  }

  /** A request inside the current window. */
  lemma RequestInWindow(limit: nat, h: seq<Call>, ip: Ip)
    requires Monotone(h) && |h| > 0 && Tracks(limit, h[..|h| - 1], ip)
    requires h[|h| - 1].Check? && h[|h| - 1].ip == ip
    requires
      var m := After(limit, h[..|h| - 1]);
      ip in m && Elapsed(m[ip].start, h[|h| - 1].now) < SECOND
    ensures Tracks(limit, h, ip)
  {
    var e := After(limit, h[..|h| - 1])[ip];
    SinceGrows(limit, h, ip, e.start);
    SinceGrows(limit, h, ip, e.start + 1);
    SinceGrows(limit, h, ip, e.start + SECOND);
    SinceGrows(limit, h, ip, e.start - SECOND + 1);
  }

  lemma {:induction false} EntriesTrack(limit: nat, h: seq<Call>, ip: Ip)
    requires Monotone(h)
    ensures Tracks(limit, h, ip)
    decreases |h|
  {
    if |h| > 0 {
      var before, c := h[..|h| - 1], h[|h| - 1];
      EntriesTrack(limit, before, ip);
      var m := After(limit, before);
      if c.Cleanup? || c.ip != ip {
        OtherCallTracks(limit, h, ip);
      } else if ip !in m {
        FirstRequest(limit, h, ip);
      } else if Elapsed(m[ip].start, c.now) >= SECOND {
        WindowOpens(limit, h, ip);
      } else {
        RequestInWindow(limit, h, ip);
      }
    }
  }

  /**
   * Over every history with a monotone clock, with cleanups anywhere and any number of other
   * addresses: fewer than twice the limit of an address's requests are admitted in any second.
   */
  lemma {:induction false} FewerThanTwiceTheLimit(limit: nat, h: seq<Call>, ip: Ip, lo: int)
    requires Monotone(h)
    ensures Admitted(limit, h, ip, lo, lo + 1_000_000_000) < 2 * AtLeastOne(limit)
    decreases |h|
  {
    if |h| > 0 {
      var c := h[|h| - 1];
      FewerThanTwiceTheLimit(limit, h[..|h| - 1], ip, lo);
      if c.Check? && c.ip == ip && lo <= c.now < lo + SECOND && Admits(limit, h) {
        LatestSecond(limit, h, ip, lo);
      }
    }
  }

  lemma SinceShrinks(limit: nat, h: seq<Call>, ip: Ip, lo: int, lo': int)
    requires lo <= lo'
    ensures Since(limit, h, ip, lo') <= Since(limit, h, ip, lo)
  {
    AdmittedMonotone(limit, h, ip, lo, lo', Clock(h) + 1, Clock(h) + 1);
  }

  /** The bound for a second that the last admission lies in. */
  lemma LatestSecond(limit: nat, h: seq<Call>, ip: Ip, lo: int)
    requires Monotone(h) && ip in After(limit, h) && lo <= Clock(h) < lo + SECOND
    requires After(limit, h)[ip].count > 0
    ensures Admitted(limit, h, ip, lo, lo + SECOND) < 2 * AtLeastOne(limit)
  {
    EntriesTrack(limit, h, ip);
    var e := After(limit, h)[ip];
    AdmittedUpToClock(limit, h, ip, lo, lo + SECOND, Clock(h) + 1);
    if lo <= e.start {
      SinceShrinks(limit, h, ip, e.start - SECOND + 1, lo);
    } else {
      SinceShrinks(limit, h, ip, e.start + 1, lo);
    }
  }

  // ---- The bound is reached ------------------------------------------------

  ghost function Burst(ip: Ip, now: nat, n: nat): seq<Call> {
    if n == 0 then [] else Burst(ip, now, n - 1) + [Check(ip, now)]
  }

  lemma {:induction false} BurstElements(ip: Ip, now: nat, n: nat)
    ensures |Burst(ip, now, n)| == n && forall i :: 0 <= i < n ==> Burst(ip, now, n)[i] == Check(ip, now)
  {
    if n > 0 {
      BurstElements(ip, now, n - 1);
    }
  }

  lemma OneMoreOf(limit: nat, h: seq<Call>, e: Entry, ip: Ip, now: nat, lo: int, hi: int)
    requires ip in After(limit, h) && After(limit, h)[ip] == e && lo <= now < hi
    requires Elapsed(e.start, now) < SECOND && e.count < limit
    ensures
      var g := h + [Check(ip, now)];
      && ip in After(limit, g)
      && After(limit, g)[ip] == e.(count := e.count + 1)
      && Admitted(limit, g, ip, lo, hi) == Admitted(limit, h, ip, lo, hi) + 1
  {
    OneMore(limit, h, ip, now, lo, hi);
  }

  lemma OneMore(limit: nat, h: seq<Call>, ip: Ip, now: nat, lo: int, hi: int)
    requires ip in After(limit, h) && lo <= now < hi
    requires Elapsed(After(limit, h)[ip].start, now) < SECOND && After(limit, h)[ip].count < limit
    ensures
      var e, g := After(limit, h)[ip], h + [Check(ip, now)];
      && ip in After(limit, g)
      && After(limit, g)[ip] == e.(count := e.count + 1)
      && Admitted(limit, g, ip, lo, hi) == Admitted(limit, h, ip, lo, hi) + 1
  {
    var g := h + [Check(ip, now)];
    assert g[..|g| - 1] == h;
  }

  lemma BurstGrows(h: seq<Call>, ip: Ip, now: nat, n: nat)
    requires n > 0
    ensures h + Burst(ip, now, n) == h + Burst(ip, now, n - 1) + [Check(ip, now)]
  {
  }

  /** A burst inside a window that still has room for it is admitted whole. */
  lemma {:induction false} BurstAdmitted(limit: nat, h: seq<Call>, ip: Ip, now: nat, n: nat, lo: int, hi: int)
    requires ip in After(limit, h) && lo <= now < hi
    requires Elapsed(After(limit, h)[ip].start, now) < SECOND && After(limit, h)[ip].count + n <= limit
    ensures
      var e, g := After(limit, h)[ip], h + Burst(ip, now, n);
      && ip in After(limit, g)
      && After(limit, g)[ip] == e.(count := e.count + n)
      && Admitted(limit, g, ip, lo, hi) == Admitted(limit, h, ip, lo, hi) + n
    decreases n
  {
    if n == 0 {
      assert h + Burst(ip, now, 0) == h;
    } else {
      var g := h + Burst(ip, now, n - 1);
      BurstAdmitted(limit, h, ip, now, n - 1, lo, hi);
      assert h + Burst(ip, now, n) == g + [Check(ip, now)] by {
        BurstGrows(h, ip, now, n);
      }
      OneMoreOf(limit, g, After(limit, h)[ip].(count := After(limit, h)[ip].count + n - 1), ip, now, lo, hi);
    }
  }

  /** One request, then all the others of its window at its very end, then a whole new window. */
  ghost function WorstCase(limit: nat, ip: Ip): seq<Call>
    requires limit > 0
  {
    [Check(ip, 0)] + Burst(ip, SECOND - 1, limit - 1) + [Check(ip, SECOND)] + Burst(ip, SECOND, limit - 1)
  }

  lemma FirstOfAll(limit: nat, ip: Ip, lo: int, hi: int)
    requires limit > 0 && lo > 0
    ensures
      var h := [Check(ip, 0)];
      ip in After(limit, h) && After(limit, h)[ip] == Entry(1, 0) && Admitted(limit, h, ip, lo, hi) == 0
  {
    assert [Check(ip, 0)][..0] == [];
  }

  lemma NextWindow(limit: nat, h: seq<Call>, ip: Ip, now: nat, lo: int, hi: int)
    requires ip in After(limit, h) && Elapsed(After(limit, h)[ip].start, now) >= SECOND && lo <= now < hi
    ensures
      var g := h + [Check(ip, now)];
      && ip in After(limit, g)
      && After(limit, g)[ip] == Entry(1, now)
      && Admitted(limit, g, ip, lo, hi) == Admitted(limit, h, ip, lo, hi) + 1
  {
    var g := h + [Check(ip, now)];
    assert g[..|g| - 1] == h;
  }

  /** The bound cannot be improved, for any limit. */
  lemma BoundIsReached(limit: nat, ip: Ip)
    requires limit > 0
    ensures Monotone(WorstCase(limit, ip))
    ensures Admitted(limit, WorstCase(limit, ip), ip, SECOND - 1, SECOND - 1 + SECOND) == 2 * limit - 1
  {
    WorstCaseMonotone(limit, ip);
    WorstCaseAdmits(limit, ip, SECOND - 1, SECOND - 1 + SECOND);
  }

  lemma WorstCaseMonotone(limit: nat, ip: Ip)
    requires limit > 0
    ensures Monotone(WorstCase(limit, ip))
  {
    var early, late := Burst(ip, SECOND - 1, limit - 1), Burst(ip, SECOND, limit - 1);
    BurstElements(ip, SECOND - 1, limit - 1);
    BurstElements(ip, SECOND, limit - 1);
    LaterCalls([Check(ip, 0)], early);
    LaterCalls([Check(ip, 0)] + early, [Check(ip, SECOND)]);
    LaterCalls([Check(ip, 0)] + early + [Check(ip, SECOND)], late);
  }

  lemma LaterCalls(h: seq<Call>, g: seq<Call>)
    requires Monotone(h) && Monotone(g) && forall i, k :: 0 <= i < |h| && 0 <= k < |g| ==> h[i].now <= g[k].now
    ensures Monotone(h + g)
  {
  }

  lemma WorstCaseAdmits(limit: nat, ip: Ip, lo: nat, hi: nat)
    requires limit > 0 && 0 < lo < SECOND < hi
    ensures Admitted(limit, WorstCase(limit, ip), ip, lo, hi) == 2 * limit - 1
  {
    var h1 := [Check(ip, 0)];
    FirstOfAll(limit, ip, lo, hi);
    var h2 := h1 + Burst(ip, SECOND - 1, limit - 1);
    BurstAdmitted(limit, h1, ip, SECOND - 1, limit - 1, lo, hi);
    var h3 := h2 + [Check(ip, SECOND)];
    NextWindow(limit, h2, ip, SECOND, lo, hi);
    BurstAdmitted(limit, h3, ip, SECOND, limit - 1, lo, hi);
  }

  // ---- Cleanup is invisible ------------------------------------------------

  ghost function WithoutCleanups(h: seq<Call>): seq<Call> {
    if |h| == 0 then []
    else if h[|h| - 1].Cleanup? then WithoutCleanups(h[..|h| - 1])
    else WithoutCleanups(h[..|h| - 1]) + [h[|h| - 1]]
  }

  ghost function Addresses(h: seq<Call>): set<Ip> {
    set i | 0 <= i < |h| && h[i].Check? :: h[i].ip
  }

  /** The swept table lacks some entries that are too old to matter, and agrees on the rest. */
  ghost predicate Swept(small: Entries, large: Entries, clock: nat) {
    && small.Keys <= large.Keys
    && (forall ip :: ip in small ==> small[ip] == large[ip])
    && (forall ip :: ip in large && ip !in small ==> large[ip].start + 60 * SECOND <= clock)
  }

  lemma CheckAgrees(limit: nat, small: Entries, large: Entries, clock: nat, ip: Ip, now: nat)
    requires limit > 0 && Swept(small, large, clock) && clock <= now
    requires |large| <= MAX_IP_ENTRIES && (ip in large || |large| < MAX_IP_ENTRIES)
    ensures Step(limit, small, Check(ip, now)).1 == Step(limit, large, Check(ip, now)).1
    ensures Swept(Step(limit, small, Check(ip, now)).0, Step(limit, large, Check(ip, now)).0, now)
  {
    FewerKeys(small.Keys, large.Keys);
    if ip in large && ip !in small {
      FewerKeys(small.Keys + {ip}, large.Keys);
    }
  }

  lemma {:induction false} KnownAddresses(limit: nat, h: seq<Call>)
    ensures After(limit, h).Keys <= Addresses(h)
    decreases |h|
  {
    if |h| > 0 {
      KnownAddresses(limit, h[..|h| - 1]);
      AddressesGrow(h);
    }
  }

  lemma AddressesGrow(h: seq<Call>)
    requires |h| > 0
    ensures
      var c := h[|h| - 1];
      Addresses(h) == Addresses(h[..|h| - 1]) + if c.Check? then {c.ip} else {}
  {
    var before := h[..|h| - 1];
    forall i | 0 <= i < |before| && before[i].Check?
      ensures before[i].ip in Addresses(h)
    {
      assert h[i].Check? && h[i].ip == before[i].ip;
    }
  }

  lemma {:induction false} SameAddresses(h: seq<Call>)
    ensures Addresses(WithoutCleanups(h)) == Addresses(h)
    decreases |h|
  {
    if |h| > 0 {
      var before := h[..|h| - 1];
      SameAddresses(before);
      AddressesGrow(h);
      if h[|h| - 1].Check? {
        var g := WithoutCleanups(h);
        AddressesGrow(g);
        assert g[..|g| - 1] == WithoutCleanups(before);
      }
    }
  }

  lemma RoomForNext(limit: nat, h: seq<Call>)
    requires |h| > 0 && h[|h| - 1].Check? && |Addresses(h)| <= MAX_IP_ENTRIES
    ensures
      var large := After(limit, WithoutCleanups(h[..|h| - 1]));
      |large| <= MAX_IP_ENTRIES && (h[|h| - 1].ip in large || |large| < MAX_IP_ENTRIES)
  {
    var before, ip := h[..|h| - 1], h[|h| - 1].ip;
    var g := WithoutCleanups(before);
    var large := After(limit, g);
    KnownAddresses(limit, g);
    SameAddresses(before);
    AddressesGrow(h);
    FewerKeys(large.Keys, Addresses(h));
    if ip !in large {
      FewerKeys(large.Keys + {ip}, Addresses(h));
    }
  }

  lemma {:induction false} CleanupsSweep(limit: nat, h: seq<Call>)
    requires limit > 0 && Monotone(h) && |Addresses(h)| <= MAX_IP_ENTRIES
    ensures Swept(After(limit, h), After(limit, WithoutCleanups(h)), Clock(h))
    ensures |h| > 0 && h[|h| - 1].Check? ==> Admits(limit, h) == Admits(limit, WithoutCleanups(h))
    decreases |h|
  {
    if |h| > 0 {
      var before, c := h[..|h| - 1], h[|h| - 1];
      AddressesGrow(h);
      FewerKeys(Addresses(before), Addresses(h));
      CleanupsSweep(limit, before);
      var small, large := After(limit, before), After(limit, WithoutCleanups(before));
      if c.Check? {
        RoomForNext(limit, h);
        CheckAgrees(limit, small, large, Clock(before), c.ip, c.now);
        var g := WithoutCleanups(h);
        assert g[..|g| - 1] == WithoutCleanups(before);
      }
    }
  }

  lemma FewerAddresses(h: seq<Call>, n: nat)
    requires n <= |h|
    ensures |Addresses(h[..n])| <= |Addresses(h)|
  {
    forall ip | ip in Addresses(h[..n]) ensures ip in Addresses(h) {
      var i :| 0 <= i < n && h[..n][i].Check? && h[..n][i].ip == ip;
      assert h[i].Check? && h[i].ip == ip;
    }
    FewerKeys(Addresses(h[..n]), Addresses(h));
  }

  /**
   * As long as no more addresses appear than the table holds, sweeping it at any moments changes no
   * verdict: every request is answered as if no cleanup had ever run.
   */
  lemma CleanupChangesNoVerdict(limit: nat, h: seq<Call>, n: nat)
    requires limit > 0 && Monotone(h) && |Addresses(h)| <= MAX_IP_ENTRIES
    requires 0 < n <= |h| && h[n - 1].Check?
    ensures Admits(limit, h[..n]) == Admits(limit, WithoutCleanups(h[..n]))
  {
    FewerAddresses(h, n);
    CleanupsSweep(limit, h[..n]);
  }
}
