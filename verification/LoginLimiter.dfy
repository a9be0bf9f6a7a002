/**
 The sliding-window login limiter of the relay.

 Times are reals and the clock is a parameter. `log` records every admission;
 the bounds on the tables hold for any clock, the window property for a clock
 that never goes back.
 */
module LoginLimiter {

  datatype Ip = Ip(text: string)

  // ---------- one address ----------

  /** Newer than the cutoff. */
  function Fresh(s: seq<real>, cutoff: real): seq<real> {
    if s == [] then []
    else Fresh(s[..|s| - 1], cutoff) + if s[|s| - 1] > cutoff then [s[|s| - 1]] else []
  }

  lemma {:induction false} FreshLength(s: seq<real>, cutoff: real)
    ensures |Fresh(s, cutoff)| <= |s|
  {
    if s != [] { FreshLength(s[..|s| - 1], cutoff); }
  }

  predicate InOrder(s: seq<real>, i: nat, j: nat)
    requires i < |s| && j < |s|
  {
    s[i] <= s[j]
  }

  ghost predicate Sorted(s: seq<real>) {
    forall i: nat, j: nat {:trigger InOrder(s, i, j)} | i < j < |s| :: InOrder(s, i, j)
  }

  /** Of a sorted list the recent part is the end. */
  lemma {:induction false} FreshIsSuffix(s: seq<real>, cutoff: real)
    requires Sorted(s)
    ensures var k := |s| - |Fresh(s, cutoff)|;
            && 0 <= k && Fresh(s, cutoff) == s[k..]
            && (forall i | 0 <= i < k :: s[i] <= cutoff)
            && (forall i | k <= i < |s| :: s[i] > cutoff)
  {
    if s != [] {
      var front, last := s[..|s| - 1], s[|s| - 1];
      SortedPart(s, 0, |s| - 1);
      FreshIsSuffix(front, cutoff);
      var k := |front| - |Fresh(front, cutoff)|;
      assert forall i | 0 <= i < |front| :: front[i] == s[i];
      forall i: nat | i < |front| ensures s[i] <= last { assert InOrder(s, i, |front|); }
    }
  }

  lemma {:induction false} SortedPart(s: seq<real>, lo: nat, hi: nat)
    requires Sorted(s) && lo <= hi <= |s|
    ensures Sorted(s[lo..hi])
  {
    forall i: nat, j: nat | i < j < hi - lo ensures InOrder(s[lo..hi], i, j) { assert InOrder(s, lo + i, lo + j); }
  }

  /** No two admissions `cap` apart in the log are closer in time than the window. */
  ghost predicate Spread(log: seq<real>, cap: nat, window: real) {
    forall i | 0 <= i < |log| - cap :: log[i + cap] - log[i] >= window
  }

  /** The stored attempts are the end of the log; what was dropped is out of the window. */
  ghost predicate LogOk(log: seq<real>, kept: seq<real>, cap: nat, window: real, clock: real) {
    && Sorted(log) && (forall x | x in log :: x <= clock)
    && |kept| <= |log| && kept == log[|log| - |kept|..]
    && (forall i | 0 <= i < |log| - |kept| :: log[i] <= clock - window)
    && Spread(log, cap, window)
  }

  lemma {:induction false} PruneKeepsLog(log: seq<real>, kept: seq<real>, cap: nat, window: real, clock: real,
      now: real)
    requires LogOk(log, kept, cap, window, clock) && clock <= now
    ensures LogOk(log, Fresh(kept, now - window), cap, window, now)
  {
    var dropped := |log| - |kept|;
    SortedPart(log, dropped, |log|);
    assert kept == log[dropped..|log|];
    FreshIsSuffix(kept, now - window);
    assert forall i | dropped <= i < |log| :: log[i] == kept[i - dropped];
    var k := |kept| - |Fresh(kept, now - window)|;
    assert kept[k..] == log[dropped + k..];
  }

  lemma {:induction false} TimePasses(log: seq<real>, kept: seq<real>, cap: nat, window: real, clock: real, now: real)
    requires LogOk(log, kept, cap, window, clock) && clock <= now
    ensures LogOk(log, kept, cap, window, now)
  {
  }

  /** Below the cap the attempt `cap` places back has left the window. */
  lemma {:induction false} AdmitKeepsLog(log: seq<real>, kept: seq<real>, cap: nat, window: real, now: real)
    requires LogOk(log, kept, cap, window, now) && |kept| < cap
    ensures LogOk(log + [now], kept + [now], cap, window, now)
  {
    var log' := log + [now];
    forall i: nat, j: nat | i < j < |log'| ensures InOrder(log', i, j) {
      if j < |log| { assert InOrder(log, i, j); } else { assert log[i] in log; }
    }
    forall i | 0 <= i < |log'| - cap ensures log'[i + cap] - log'[i] >= window {
      if i + cap < |log| { assert log[i + cap] - log[i] >= window; }
    }
  }

  function CountIn(log: seq<real>, from: real, window: real): nat {
    if log == [] then 0
    else CountIn(log[..|log| - 1], from, window) + if from <= log[|log| - 1] < from + window then 1 else 0
  }

  lemma {:induction false} WindowIsSlice(log: seq<real>, from: real, window: real) returns (i: nat, j: nat)
    requires Sorted(log)
    ensures i <= j <= |log| && CountIn(log, from, window) == j - i
    ensures forall k | i <= k < j :: from <= log[k] < from + window
    ensures forall k | 0 <= k < i :: log[k] < from
    ensures forall k | j <= k < |log| :: log[k] >= from + window
  {
    i, j := 0, 0;
    if log != [] {
      var front, last := log[..|log| - 1], log[|log| - 1];
      SortedPart(log, 0, |log| - 1);
      i, j := WindowIsSlice(front, from, window);
      forall k: nat | k < |front| ensures front[k] == log[k] && log[k] <= last { assert InOrder(log, k, |front|); }
      if last < from {
        i, j := |log|, |log|;
        WindowBefore(front, from, window);
      } else if last < from + window {
        j := |log|;
      }
    }
  }

  lemma {:induction false} WindowBefore(log: seq<real>, from: real, window: real)
    requires forall k | 0 <= k < |log| :: log[k] < from
    ensures CountIn(log, from, window) == 0
  {
    if log != [] { WindowBefore(log[..|log| - 1], from, window); }
  }

  /** Whatever the start, a window holds at most `cap` admissions. */
  lemma {:induction false} AtMostCapInAnyWindow(log: seq<real>, kept: seq<real>, cap: nat, window: real, clock: real,
      from: real)
    requires LogOk(log, kept, cap, window, clock)
    ensures CountIn(log, from, window) <= cap
  {
    var i, j := WindowIsSlice(log, from, window);
    if i + cap < |log| { assert log[i + cap] - log[i] >= window; }
    if i + cap < j { assert false; }
  }

  // ---------- all addresses ----------

  datatype Attempts = Attempts(times: seq<real>)
  type Table = map<Ip, Attempts>

  function Dropped(m: Table, ip: Ip): Table {
    map k | k in m && k != ip :: m[k]
  }

  lemma {:induction false} DroppedSize(m: Table, ip: Ip)
    requires ip in m
    ensures |Dropped(m, ip)| == |m| - 1
  {
    assert Dropped(m, ip).Keys == m.Keys - {ip};
  }

  /** The number of stored attempts. */
  ghost function Stored(m: Table): nat
    decreases |m|
  {
    if m == map[] then 0
    else
      var ip :| ip in m;
      DroppedSize(m, ip);
      |m[ip].times| + Stored(Dropped(m, ip))
  }

  lemma {:induction false} StoredWithout(m: Table, ip: Ip)
    requires ip in m
    ensures Stored(m) == |m[ip].times| + Stored(Dropped(m, ip))
    decreases |m|
  {
    var x :| x in m && Stored(m) == |m[x].times| + Stored(Dropped(m, x));
    if x != ip {
      DroppedSize(m, x);
      DroppedSize(m, ip);
      StoredWithout(Dropped(m, x), ip);
      StoredWithout(Dropped(m, ip), x);
      assert Dropped(Dropped(m, x), ip) == Dropped(Dropped(m, ip), x);
    }
  }

  function ListOf(m: Table, ip: Ip): seq<real> {
    if ip in m then m[ip].times else []
  }

  /** One list replaced, added, or dropped when it is empty. */
  function WithList(m: Table, ip: Ip, list: seq<real>): Table {
    if list == [] then Dropped(m, ip) else m[ip := Attempts(list)]
  }

  lemma {:induction false} StoredWithList(m: Table, ip: Ip, list: seq<real>)
    ensures Stored(WithList(m, ip, list)) == Stored(m) - |ListOf(m, ip)| + |list|
  {
    if ip in m { StoredWithout(m, ip); } else { assert Dropped(m, ip) == m; }
    if list != [] {
      StoredWithout(m[ip := Attempts(list)], ip);
      assert Dropped(m[ip := Attempts(list)], ip) == Dropped(m, ip);
    }
  }

  lemma {:induction false} WithListSize(m: Table, ip: Ip, list: seq<real>)
    ensures |WithList(m, ip, list)| <= if ip in m then |m| else |m| + 1
    ensures list == [] ==> |WithList(m, ip, list)| <= |m|
  {
    if list != [] {
      assert m[ip := Attempts(list)].Keys == m.Keys + {ip};
      if ip in m { assert m[ip := Attempts(list)].Keys == m.Keys; }
    } else if ip in m {
      DroppedSize(m, ip);
    } else {
      assert Dropped(m, ip) == m;
    }
  }

  // ---------- pruning ----------

  /** The table with the stale attempts of the given addresses dropped, and with them the emptied entries. */
  function Cleaned(m: Table, ips: set<Ip>, cutoff: real): Table {
    map ip | ip in m && (ip !in ips || Fresh(m[ip].times, cutoff) != []) ::
      if ip in ips then Attempts(Fresh(m[ip].times, cutoff)) else m[ip]
  }

  lemma {:induction false} CleanStep(m: Table, done: set<Ip>, ip: Ip, cutoff: real)
    requires ip !in done
    ensures Cleaned(m, done + {ip}, cutoff) == WithList(Cleaned(m, done, cutoff), ip, Fresh(ListOf(m, ip), cutoff))
  {
  }

  lemma {:induction false} CleanOne(m: Table, ip: Ip, cutoff: real)
    ensures Cleaned(m, {ip}, cutoff) == WithList(m, ip, Fresh(ListOf(m, ip), cutoff))
  {
    CleanStep(m, {}, ip, cutoff);
    assert Cleaned(m, {}, cutoff) == m && {} + {ip} == {ip};
  }

  /** Every list is non-empty and within the cap of one address. */
  ghost predicate ListsOk(m: Table, cap: nat) {
    forall ip | ip in m :: m[ip].times != [] && |m[ip].times| <= cap
  }

  ghost predicate WindowsOk(log: Table, m: Table, cap: nat, window: real, clock: real) {
    forall ip :: AddressOk(log, m, ip, cap, window, clock)
  }

  ghost predicate AddressOk(log: Table, m: Table, ip: Ip, cap: nat, window: real, clock: real) {
    LogOk(ListOf(log, ip), ListOf(m, ip), cap, window, clock)
  }

  lemma {:induction false} CleanKeepsAddress(log: Table, m: Table, ips: set<Ip>, ip: Ip, cap: nat, window: real,
      clock: real, now: real)
    requires AddressOk(log, m, ip, cap, window, clock) && clock <= now
    ensures AddressOk(log, Cleaned(m, ips, now - window), ip, cap, window, now)
  {
    if ip in ips && ip in m {
      PruneKeepsLog(ListOf(log, ip), ListOf(m, ip), cap, window, clock, now);
    } else {
      TimePasses(ListOf(log, ip), ListOf(m, ip), cap, window, clock, now);
    }
  }

  lemma {:induction false} CleanKeepsWindows(log: Table, m: Table, ips: set<Ip>, cap: nat, window: real, clock: real,
      now: real)
    requires WindowsOk(log, m, cap, window, clock) && clock <= now
    ensures WindowsOk(log, Cleaned(m, ips, now - window), cap, window, now)
  {
    var m' := Cleaned(m, ips, now - window);
    forall ip ensures AddressOk(log, m', ip, cap, window, now) {
      CleanKeepsAddress(log, m, ips, ip, cap, window, clock, now);
    }
  }

  /** A list swapped for its recent part. */
  lemma {:induction false} PruneStep(m: Table, ip: Ip, cutoff: real, cap: nat)
    requires ListsOk(m, cap)
    ensures var list := Fresh(ListOf(m, ip), cutoff);
            var after := WithList(m, ip, list);
            && ListsOk(after, cap) && |after| <= |m| && |list| <= |ListOf(m, ip)|
            && Stored(after) == Stored(m) - (|ListOf(m, ip)| - |list|)
  {
    var list := Fresh(ListOf(m, ip), cutoff);
    FreshLength(ListOf(m, ip), cutoff);
    StoredWithList(m, ip, list);
    WithListSize(m, ip, list);
  }

  lemma {:induction false} AdmitKeepsTable(m: Table, ip: Ip, now: real, cap: nat)
    requires ListsOk(m, cap) && |ListOf(m, ip)| < cap
    ensures var after := m[ip := Attempts(ListOf(m, ip) + [now])];
            ListsOk(after, cap) && Stored(after) == Stored(m) + 1 && |after| == if ip in m then |m| else |m| + 1
  {
    var list := ListOf(m, ip) + [now];
    StoredWithList(m, ip, list);
    if ip in m {
      assert m[ip := Attempts(list)].Keys == m.Keys;
    } else {
      assert m[ip := Attempts(list)].Keys == m.Keys + {ip};
    }
  }

  lemma {:induction false} AdmitKeepsWindows(log: Table, m: Table, ip: Ip, cap: nat, window: real, now: real)
    requires WindowsOk(log, m, cap, window, now) && |ListOf(m, ip)| < cap
    ensures WindowsOk(log[ip := Attempts(ListOf(log, ip) + [now])], m[ip := Attempts(ListOf(m, ip) + [now])], cap,
            window, now)
  {
    var log', m' := log[ip := Attempts(ListOf(log, ip) + [now])], m[ip := Attempts(ListOf(m, ip) + [now])];
    forall x ensures AddressOk(log', m', x, cap, window, now) {
      assert AddressOk(log, m, x, cap, window, now);
      if x == ip { AdmitKeepsLog(ListOf(log, ip), ListOf(m, ip), cap, window, now); }
    }
  }

  lemma {:induction false} FreshTwice(s: seq<real>, cutoff: real)
    ensures Fresh(Fresh(s, cutoff), cutoff) == Fresh(s, cutoff)
  {
    if s != [] {
      var front, last := s[..|s| - 1], s[|s| - 1];
      FreshTwice(front, cutoff);
      var kept := Fresh(front, cutoff);
      assert Fresh(s, cutoff) == if last > cutoff then kept + [last] else kept;
      assert (kept + [last])[..|kept|] == kept;
    }
  }

  /** An attempt finds its own list pruned, whether or not everything else was. */
  lemma {:induction false} PrunedList(m: Table, ips: set<Ip>, ip: Ip, cutoff: real)
    ensures ListOf(Pruned(m, ips, ip, cutoff), ip) == Fresh(ListOf(m, ip), cutoff)
  {
    FreshTwice(ListOf(m, ip), cutoff);
  }

  /** The table as an attempt from `ip` finds it. */
  function Pruned(m: Table, ips: set<Ip>, ip: Ip, cutoff: real): Table {
    var cleaned := Cleaned(m, ips, cutoff);
    WithList(cleaned, ip, Fresh(ListOf(cleaned, ip), cutoff))
  }

  lemma {:induction false} PruneKeepsWindows(log: Table, m: Table, ips: set<Ip>, ip: Ip, cap: nat, window: real,
      clock: real, now: real)
    requires WindowsOk(log, m, cap, window, clock) && clock <= now
    ensures WindowsOk(log, Pruned(m, ips, ip, now - window), cap, window, now)
  {
    CleanOne(Cleaned(m, ips, now - window), ip, now - window);
    CleanKeepsWindows(log, m, ips, cap, window, clock, now);
    CleanKeepsWindows(log, Cleaned(m, ips, now - window), {ip}, cap, window, now, now);
  }

  lemma {:induction false} PrunedWindows(log: Table, m: Table, ips: set<Ip>, ip: Ip, cap: nat, window: real,
      clock: real, now: real)
    ensures WindowsOk(log, m, cap, window, clock) && clock <= now ==>
              WindowsOk(log, Pruned(m, ips, ip, now - window), cap, window, now)
  {
    if WindowsOk(log, m, cap, window, clock) && clock <= now {
      PruneKeepsWindows(log, m, ips, ip, cap, window, clock, now);
    }
  }

  lemma {:induction false} PrunedFacts(log: Table, m: Table, ips: set<Ip>, ip: Ip, cap: nat, window: real,
      clock: real, now: real)
    ensures var after := Pruned(m, ips, ip, now - window);
            && ListOf(after, ip) == Fresh(ListOf(m, ip), now - window)
            && (WindowsOk(log, m, cap, window, clock) && clock <= now ==> WindowsOk(log, after, cap, window, now))
  {
    PrunedList(m, ips, ip, now - window);
    PrunedWindows(log, m, ips, ip, cap, window, clock, now);
  }

  class LoginRateLimiter {
    const window: real
    const maxPerIp: nat
    const maxIps: nat
    const maxTotalAttempts: nat
    const cleanupInterval: real
    var attempts: Table
    var totalAttempts: int
    var lastCleanup: real
    ghost var log: Table
    ghost var clock: real

    /** The most admissions of one address in a window: a cap of 0 still lets a first attempt in. */
    ghost function Cap(): nat {
      if maxPerIp == 0 then 1 else maxPerIp
    }

    /** The counters and the table bounds, whatever the clock does. */
    ghost predicate Valid()
      reads this
    {
      && ListsOk(attempts, Cap()) && |attempts| <= maxIps
      && totalAttempts == Stored(attempts) <= maxTotalAttempts
    }

    /** Every address has kept to its window. */
    ghost predicate WindowOk()
      reads this
    {
      WindowsOk(log, attempts, Cap(), window, clock)
    }

    constructor (window: real, maxPerIp: nat, maxIps: nat, maxTotalAttempts: nat, cleanupInterval: real, start: real)
      ensures Valid() && WindowOk() && log == map[] && clock == start
      ensures this.window == window && this.maxPerIp == maxPerIp
    {
      this.window, this.maxPerIp, this.maxIps, this.maxTotalAttempts := window, maxPerIp, maxIps, maxTotalAttempts;
      this.cleanupInterval := cleanupInterval;
      attempts, totalAttempts, lastCleanup, log, clock := map[], 0, 0.0, map[], start;
    }

    method Cleanup(now: real)
      requires Valid()
      modifies this`attempts, this`totalAttempts, this`lastCleanup
      ensures Valid() && lastCleanup == now
      ensures attempts == Cleaned(old(attempts), old(attempts).Keys, now - window)
    {
      totalAttempts := KeepAllRecent(now - window);
      lastCleanup := now;
    }

    /** The loop over all addresses; returns how many attempts are left. */
    method KeepAllRecent(cutoff: real) returns (total: nat)
      requires ListsOk(attempts, Cap())
      modifies this`attempts
      ensures attempts == Cleaned(old(attempts), old(attempts).Keys, cutoff) && ListsOk(attempts, Cap())
      ensures |attempts| <= |old(attempts)| && total == Stored(attempts) <= Stored(old(attempts))
    {
      ghost var before := attempts;
      total := 0;
      var todo := attempts.Keys;
      CleaningStarts(before, cutoff, Cap());
      while todo != {}
        invariant Cleaning(before, todo, attempts, total, cutoff, Cap())
      {
        var ip :| ip in todo;
        CleaningStep(before, todo, attempts, total, cutoff, Cap(), ip);
        var kept := KeepRecent(ip, cutoff);
        total := total + kept;
        todo := todo - {ip};
      }
      CleaningEnds(before, todo, attempts, total, cutoff, Cap());
    }

    /** The recent attempts of one address, or no entry when there are none. */
    method KeepRecent(ip: Ip, cutoff: real) returns (kept: nat)
      requires ip in attempts
      modifies this`attempts
      ensures attempts == WithList(old(attempts), ip, Fresh(old(attempts)[ip].times, cutoff))
      ensures kept == |Fresh(old(attempts)[ip].times, cutoff)|
    {
      var recent := Fresh(attempts[ip].times, cutoff);
      kept := |recent|;
      if recent != [] {
        attempts := attempts[ip := Attempts(recent)];
      } else {
        attempts := Dropped(attempts, ip);
      }
    }

    /** Prunes one address before it is judged. */
    method PruneAddress(ip: Ip, now: real)
      requires Valid()
      modifies this`attempts, this`totalAttempts
      ensures Valid()
      ensures attempts == WithList(old(attempts), ip, Fresh(ListOf(old(attempts), ip), now - window))
    {
      if ip in attempts {
        PruneStep(attempts, ip, now - window, Cap());
        var before := |attempts[ip].times|;
        var kept := KeepRecent(ip, now - window);
        totalAttempts := totalAttempts - (before - kept);
      } else {
        assert Dropped(attempts, ip) == attempts;
      }
    }

    /** Whether the attempt is refused; otherwise it is recorded. */
    method Limited(ip: Ip, now: real) returns (limited: bool)
      requires Valid()
      modifies this
      ensures Valid() && clock == now
      ensures old(WindowOk()) && old(clock) <= now ==> WindowOk()
      ensures log == if limited then old(log) else old(log)[ip := Attempts(ListOf(old(log), ip) + [now])]
      ensures var table := Pruned(old(attempts), old(Due(now)), ip, now - window);
              && (limited <==> Refuses(table, ip))
              && attempts == if limited then table else table[ip := Attempts(ListOf(table, ip) + [now])]
    {
      Prepare(ip, now);
      if ip in attempts && |attempts[ip].times| >= maxPerIp { return true; }
      if ip !in attempts && |attempts| >= maxIps { return true; }
      if totalAttempts >= maxTotalAttempts { return true; }
      Admit(ip, now);
      return false;
    }

    /** The three caps, on a pruned table; an address without attempts is not held to the first. */
    ghost predicate Refuses(table: Table, ip: Ip) {
      || (ip in table && |table[ip].times| >= maxPerIp)
      || (ip !in table && |table| >= maxIps)
      || Stored(table) >= maxTotalAttempts
    }

    method PruneTable(ip: Ip, now: real)
      requires Valid()
      modifies this`attempts, this`totalAttempts, this`lastCleanup
      ensures Valid() && attempts == Pruned(old(attempts), old(Due(now)), ip, now - window)
    {
      CleanupIfDue(now);
      PruneAddress(ip, now);
    }

    method Prepare(ip: Ip, now: real)
      requires Valid()
      modifies this`attempts, this`totalAttempts, this`lastCleanup, this`clock
      ensures Valid() && clock == now
      ensures attempts == Pruned(old(attempts), old(Due(now)), ip, now - window)
      ensures old(WindowOk()) && old(clock) <= now ==> WindowOk()
    {
      PrunedFacts(log, attempts, Due(now), ip, Cap(), window, clock, now);
      PruneTable(ip, now);
      clock := now;
    }

    method Admit(ip: Ip, now: real)
      requires Valid() && clock == now
      requires |ListOf(attempts, ip)| < Cap() && totalAttempts < maxTotalAttempts
              && (ip in attempts || |attempts| < maxIps)
      modifies this`attempts, this`totalAttempts, this`log
      ensures Valid() && (old(WindowOk()) ==> WindowOk())
      ensures attempts == old(attempts)[ip := Attempts(ListOf(old(attempts), ip) + [now])]
      ensures log == old(log)[ip := Attempts(ListOf(old(log), ip) + [now])]
    {
      AdmitKeepsTable(attempts, ip, now, Cap());
      if WindowOk() { AdmitKeepsWindows(log, attempts, ip, Cap(), window, now); }
      attempts := attempts[ip := Attempts(ListOf(attempts, ip) + [now])];
      totalAttempts := totalAttempts + 1;
      log := log[ip := Attempts(ListOf(log, ip) + [now])];
    }

    /** The addresses that are pruned before an attempt is judged, besides its own. */
    function Due(now: real): set<Ip>
      reads this
    {
      if now - lastCleanup >= cleanupInterval then attempts.Keys else {}
    }

    method CleanupIfDue(now: real)
      requires Valid()
      modifies this`attempts, this`totalAttempts, this`lastCleanup
      ensures Valid() && attempts == Cleaned(old(attempts), old(Due(now)), now - window)
    {
      if now - lastCleanup >= cleanupInterval {
        Cleanup(now);
      } else {
        CleanNone(attempts, now - window);
      }
    }
  }

  lemma {:induction false} CleanNone(m: Table, cutoff: real)
    ensures Cleaned(m, {}, cutoff) == m
  {
  }

  /** Every address outside `todo` has been pruned, and `total` counts what those lists kept. */
  ghost predicate Cleaning(m0: Table, todo: set<Ip>, m: Table, total: int, cutoff: real, cap: nat) {
    && todo <= m0.Keys
    && m == Cleaned(m0, m0.Keys - todo, cutoff)
    && ListsOk(m, cap) && |m| <= |m0|
    && total + Stored(Rest(m, todo)) == Stored(m) <= Stored(m0)
  }

  lemma {:induction false} CleaningStarts(m: Table, cutoff: real, cap: nat)
    requires ListsOk(m, cap)
    ensures Cleaning(m, m.Keys, m, 0, cutoff, cap)
  {
    CleanNone(m, cutoff);
    assert m.Keys - m.Keys == {} && Rest(m, m.Keys) == m;
  }

  lemma {:induction false} CleaningStep(m0: Table, todo: set<Ip>, m: Table, total: int, cutoff: real, cap: nat, ip: Ip)
    requires Cleaning(m0, todo, m, total, cutoff, cap) && ip in todo
    ensures ip in m
    ensures var list := Fresh(m[ip].times, cutoff);
            Cleaning(m0, todo - {ip}, WithList(m, ip, list), total + |list|, cutoff, cap)
  {
    var done := m0.Keys - todo;
    assert m0.Keys - (todo - {ip}) == done + {ip};
    assert ip in m && m[ip] == m0[ip];
    CleanStep(m0, done, ip, cutoff);
    PruneStep(m, ip, cutoff, cap);
    RestStep(m, todo, ip, cutoff);
  }

  lemma {:induction false} CleaningEnds(m0: Table, todo: set<Ip>, m: Table, total: int, cutoff: real, cap: nat)
    requires Cleaning(m0, todo, m, total, cutoff, cap) && todo == {}
    ensures m == Cleaned(m0, m0.Keys, cutoff) && ListsOk(m, cap)
    ensures |m| <= |m0| && total == Stored(m) <= Stored(m0)
  {
    assert Rest(m, todo) == map[] && m0.Keys - todo == m0.Keys;
  }

  /** The lists still to be looked at. */
  function Rest(m: Table, todo: set<Ip>): Table {
    map ip | ip in m && ip in todo :: m[ip]
  }

  lemma {:induction false} RestStep(m: Table, todo: set<Ip>, ip: Ip, cutoff: real)
    requires ip in m && ip in todo
    ensures var list := Fresh(m[ip].times, cutoff);
            && Stored(Rest(m, todo)) == Stored(Rest(WithList(m, ip, list), todo - {ip})) + |m[ip].times|
  {
    var list := Fresh(m[ip].times, cutoff);
    StoredWithout(Rest(m, todo), ip);
    assert Rest(WithList(m, ip, list), todo - {ip}) == Dropped(Rest(m, todo), ip);
  }
}
