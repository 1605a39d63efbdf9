/** The login limiter: two maps of failure windows that forget stale entries. */
module Limiter {

  /** Nanoseconds; 0 is the zero time, which no clock reading equals. */
  type Time = nat

  const MINUTE := 60_000_000_000
  const WINDOW := 5 * MINUTE
  const BLOCK := 15 * MINUTE
  const ACCOUNT_LIMIT := 8
  const IP_LIMIT := 40

  datatype Entry = Entry(windowStarted: Time, blockedUntil: Time, lastSeen: Time, failures: nat)

  const ZERO := Entry(0, 0, 0, 0)

  /** An account as seen from one peer. */
  datatype Key = Key(username: string, remoteIP: string)

  /****** one entry ******/

  /** The entry after one more failure, and whether this failure reached the limit. */
  function Failed(e: Entry, now: Time, limit: nat): (Entry, bool) {
    var w :=
      if e.windowStarted == 0 || now - e.windowStarted > WINDOW then e.(windowStarted := now, failures := 0, blockedUntil := 0) else e;
    var failures := w.failures + 1;
    var blockedUntil := if failures >= limit then now + BLOCK else w.blockedUntil;
    (w.(failures := failures, lastSeen := now, blockedUntil := blockedUntil), failures == limit)
  }

  predicate Stale(e: Entry, now: Time) {
    e.lastSeen < now - (BLOCK + WINDOW) && now >= e.blockedUntil
  }

  /****** one map ******/

  function Get<K(==)>(m: map<K, Entry>, k: K): Entry {
    if k in m then m[k] else ZERO
  }

  function Purged<K(==)>(m: map<K, Entry>, now: Time): map<K, Entry> {
    map k | k in m && !Stale(m[k], now) :: m[k]
  }

  /** A full map gives up `victim` for a key that it does not have. */
  function WithRoom<K(==)>(m: map<K, Entry>, k: K, max: nat, victim: K): map<K, Entry> {
    if k !in m && |m| >= max then m - {victim} else m
  }

  function RetryAfter<K(==)>(m: map<K, Entry>, k: K, now: Time): nat {
    if k in m && now < m[k].blockedUntil then m[k].blockedUntil - now else 0
  }

  /****** the limiter as a value ******/

  datatype State = State(accounts: map<Key, Entry>, ips: map<string, Entry>, lastCleanup: Time)

  const EMPTY := State(map[], map[], 0)

  datatype Call =
    | CheckCall(username: string, remoteIP: string, now: Time)
    | FailureCall(username: string, remoteIP: string, now: Time)
    | ClearCall(username: string, remoteIP: string)

  datatype Answer = Retry(after: nat) | Transitions(account: bool, ip: bool) | Cleared

  /** The keys that eviction picks when a map is full. */
  datatype Victims = Victims(account: Key, ip: string)

  function CleanedUp(s: State, now: Time): State {
    if s.lastCleanup != 0 && now - s.lastCleanup < MINUTE then s
    else State(Purged(s.accounts, now), Purged(s.ips, now), now)
  }

  function Max(a: nat, b: nat): nat {
    if b > a then b else a
  }

  /** What a call answers and leaves behind, without cleanup. */
  function Serve(s: State, call: Call, max: nat, v: Victims): (State, Answer) {
    match call
    case CheckCall(username, ip, now) =>
      (s, Retry(Max(RetryAfter(s.accounts, Key(username, ip), now), RetryAfter(s.ips, ip, now))))
    case FailureCall(username, ip, now) =>
      var key := Key(username, ip);
      var accounts, ips := WithRoom(s.accounts, key, max, v.account), WithRoom(s.ips, ip, max, v.ip);
      var (account, accountBlocked) := Failed(Get(accounts, key), now, ACCOUNT_LIMIT);
      var (peer, ipBlocked) := Failed(Get(ips, ip), now, IP_LIMIT);
      (s.(accounts := accounts[key := account], ips := ips[ip := peer]), Transitions(accountBlocked, ipBlocked))
    case ClearCall(username, ip) =>
      (s.(accounts := s.accounts - {Key(username, ip)}), Cleared)
  }

  /** A call of the limiter. */
  function Step(s: State, call: Call, max: nat, v: Victims): (State, Answer) {
    Serve(if call.ClearCall? then s else CleanedUp(s, call.now), call, max, v)
  }

  /** The same call of a limiter that never forgets and never runs full. */
  function KeepStep(s: State, call: Call): (State, Answer) {
    Serve(s, call, |s.accounts| + |s.ips| + 1, Victims(Key("", ""), ""))
  }

  predicate Evicts(s: State, call: Call, max: nat) {
    call.FailureCall? &&
      var t := CleanedUp(s, call.now);
      (Key(call.username, call.remoteIP) !in t.accounts && |t.accounts| >= max) || (call.remoteIP !in t.ips && |t.ips| >= max)
  }

  /****** the limiter as an object ******/

  class LoginLimiter {
    var accountEntries: map<Key, Entry>
    var ipEntries: map<string, Entry>
    const maxEntries: nat
    var lastCleanup: Time

    function View(): State
      reads this
    {
      State(accountEntries, ipEntries, lastCleanup)
    }

    ghost predicate Valid()
      reads this
    {
      maxEntries > 0 && |accountEntries| <= maxEntries && |ipEntries| <= maxEntries
    }

    constructor (max: int)
      ensures Valid() && View() == EMPTY && maxEntries == if max <= 0 then 10_000 else max
    {
      accountEntries, ipEntries, lastCleanup := map[], map[], 0;
      maxEntries := if max <= 0 then 10_000 else max;
    }

    method RemoveStale(now: Time)
      requires Valid()
      modifies this`accountEntries, this`ipEntries
      ensures Valid()
      ensures accountEntries == Purged(old(accountEntries), now) && ipEntries == Purged(old(ipEntries), now)
    {
      var accounts := WithoutStale(accountEntries, now);
      var ips := WithoutStale(ipEntries, now);
      PurgedShrinks(accountEntries, now);
      PurgedShrinks(ipEntries, now);
      accountEntries, ipEntries := accounts, ips;
    }

    method CleanupIfDue(now: Time)
      requires Valid()
      modifies this
      ensures Valid() && View() == CleanedUp(old(View()), now)
    {
      if lastCleanup != 0 && now - lastCleanup < MINUTE { return; }
      RemoveStale(now);
      lastCleanup := now;
    }

    method Check(username: string, remoteIP: string, now: Time) returns (retryAfter: nat, blocked: bool)
      requires Valid()
      modifies this
      ensures Valid() && blocked == (retryAfter > 0)
      ensures forall v :: Step(old(View()), CheckCall(username, remoteIP, now), maxEntries, v) == (View(), Retry(retryAfter))
    {
      CleanupIfDue(now);
      retryAfter := 0;
      var key := Key(username, remoteIP);
      if key in accountEntries && now < accountEntries[key].blockedUntil {
        retryAfter := accountEntries[key].blockedUntil - now;
      }
      if remoteIP in ipEntries && now < ipEntries[remoteIP].blockedUntil {
        var retry := ipEntries[remoteIP].blockedUntil - now;
        if retry > retryAfter { retryAfter := retry; }
      }
      blocked := retryAfter > 0;
    }

    method RecordFailure(username: string, remoteIP: string, now: Time) returns (account: bool, ip: bool, ghost v: Victims)
      requires Valid()
      modifies this
      ensures Valid()
      ensures Step(old(View()), FailureCall(username, remoteIP, now), maxEntries, v) == (View(), Transitions(account, ip))
    {
      CleanupIfDue(now);
      ghost var before := View();
      var key := Key(username, remoteIP);
      v := Victims(key, remoteIP);
      if key !in accountEntries && |accountEntries| >= maxEntries {
        var victim := RemoveOne(accountEntries);
        RoomMade(accountEntries, victim);
        v := v.(account := victim);
        accountEntries := accountEntries - {victim};
      }
      var (accountEntry, accountBlocked) := Failed(Get(accountEntries, key), now, ACCOUNT_LIMIT);
      accountEntries := accountEntries[key := accountEntry];
      if remoteIP !in ipEntries && |ipEntries| >= maxEntries {
        var victim := RemoveOne(ipEntries);
        RoomMade(ipEntries, victim);
        v := v.(ip := victim);
        ipEntries := ipEntries - {victim};
      }
      var (ipEntry, ipBlocked) := Failed(Get(ipEntries, remoteIP), now, IP_LIMIT);
      ipEntries := ipEntries[remoteIP := ipEntry];
      account, ip := accountBlocked, ipBlocked;
    }

    method Clear(username: string, remoteIP: string)
      requires Valid()
      modifies this
      ensures Valid()
      ensures forall v :: Step(old(View()), ClearCall(username, remoteIP), maxEntries, v) == (View(), Cleared)
    {
      RemovedShrinks(accountEntries, Key(username, remoteIP));
      accountEntries := accountEntries - {Key(username, remoteIP)};
    }
  }

  /** The deletion loop over one map. */
  method WithoutStale<K(==)>(m: map<K, Entry>, now: Time) returns (kept: map<K, Entry>)
    ensures kept == Purged(m, now)
  {
    kept := m;
    var todo := m.Keys;
    while todo != {}
      invariant todo <= m.Keys && kept.Keys <= m.Keys
      invariant forall k | k in kept :: kept[k] == m[k]
      invariant forall k | k in m :: k in kept <==> k in todo || !Stale(m[k], now)
      decreases todo
    {
      var key :| key in todo;
      if Stale(m[key], now) {
        kept := kept - {key};
      }
      todo := todo - {key};
    }
  }

  method RemoveOne<K(==)>(m: map<K, Entry>) returns (victim: K)
    requires |m| > 0
    ensures victim in m
  {
    assert m.Keys != {};
    victim :| victim in m;
  }

  lemma RoomMade<K>(m: map<K, Entry>, victim: K)
    requires victim in m
    ensures |m - {victim}| == |m| - 1
  {
    assert (m - {victim}).Keys == m.Keys - {victim};
  }

  lemma RemovedShrinks<K>(m: map<K, Entry>, k: K)
    ensures |m - {k}| <= |m|
  {
    if k in m { RoomMade(m, k); } else { assert m - {k} == m; }
  }

  lemma PurgedShrinks<K>(m: map<K, Entry>, now: Time)
    ensures |Purged(m, now)| <= |m|
  {
    SubsetSize(Purged(m, now).Keys, m.Keys);
  }

  lemma {:induction false} SubsetSize<K>(a: set<K>, b: set<K>)
    requires a <= b
    ensures |a| <= |b|
  {
    if a != {} {
      var x :| x in a;
      SubsetSize(a - {x}, b - {x});
    }
  }
}
