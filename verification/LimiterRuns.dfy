/** Whole call sequences of the login limiter. */
module LimiterRuns {
  import opened Limiter

  datatype Turn = Turn(call: Call, victims: Victims)

  /** The state and the answers after a sequence of calls. */
  function Run(turns: seq<Turn>, max: nat): (State, seq<Answer>) {
    if turns == [] then (EMPTY, [])
    else
      var (s, answers) := Run(turns[..|turns| - 1], max);
      var last := turns[|turns| - 1];
      var (t, answer) := Step(s, last.call, max, last.victims);
      (t, answers + [answer])
  }

  /** The same calls on a limiter that never forgets. */
  function KeepRun(turns: seq<Turn>): (State, seq<Answer>) {
    if turns == [] then (EMPTY, [])
    else
      var (s, answers) := KeepRun(turns[..|turns| - 1]);
      var (t, answer) := KeepStep(s, turns[|turns| - 1].call);
      (t, answers + [answer])
  }

  /** No call of the sequence finds a full map without its key. */
  predicate NoEviction(turns: seq<Turn>, max: nat) {
    turns == [] ||
      var n := |turns| - 1;
      NoEviction(turns[..n], max) && !Evicts(Run(turns[..n], max).0, turns[n].call, max)
  }

  /** The latest reading of the clock, 0 before the first. */
  function Clock(turns: seq<Turn>): Time {
    if turns == [] then 0
    else
      var call := turns[|turns| - 1].call;
      if call.ClearCall? then Clock(turns[..|turns| - 1]) else call.now
  }

  /** Readings are past the zero time and never go back. */
  predicate Monotone(turns: seq<Turn>) {
    turns == [] ||
      var n := |turns| - 1;
      Monotone(turns[..n]) && (turns[n].call.ClearCall? || (0 < turns[n].call.now && Clock(turns[..n]) <= turns[n].call.now))
  }

  /****** forgetting is unobservable ******/

  ghost predicate Sane<K(!new)>(m: map<K, Entry>, now: Time) {
    forall k | k in m :: 0 < m[k].windowStarted <= m[k].lastSeen <= now
  }

  /** The maps agree but for entries that are stale by now. */
  ghost predicate Agrees<K(!new)>(m: map<K, Entry>, full: map<K, Entry>, now: Time) {
    && (forall k | k in m :: k in full && m[k] == full[k])
    && (forall k | k in full && k !in m :: Stale(full[k], now))
    && Sane(full, now)
  }

  ghost predicate Same(s: State, full: State, now: Time) {
    Agrees(s.accounts, full.accounts, now) && Agrees(s.ips, full.ips, now)
  }

  lemma PurgeAgrees<K(!new)>(m: map<K, Entry>, full: map<K, Entry>, now: Time, later: Time)
    requires Agrees(m, full, now) && now <= later
    ensures Agrees(Purged(m, later), full, later) && Agrees(m, full, later)
  {
  }

  /** A stale entry answers a failure as if it had never been. */
  lemma StaleFailsFresh(e: Entry, now: Time, limit: nat)
    requires Stale(e, now) && 0 < e.windowStarted <= e.lastSeen
    ensures Failed(e, now, limit) == Failed(ZERO, now, limit)
  {
  }

  lemma FailAgrees<K(!new)>(m: map<K, Entry>, full: map<K, Entry>, now: Time, k: K, limit: nat)
    requires Agrees(m, full, now) && now > 0
    ensures Failed(Get(m, k), now, limit) == Failed(Get(full, k), now, limit)
    ensures Agrees(m[k := Failed(Get(m, k), now, limit).0], full[k := Failed(Get(full, k), now, limit).0], now)
  {
    if k in full && k !in m {
      StaleFailsFresh(full[k], now, limit);
    }
  }

  lemma ServeAgrees(s: State, full: State, call: Call, max: nat, v: Victims)
    requires !call.ClearCall? && call.now > 0 && Same(s, full, call.now)
    requires call.FailureCall? ==>
      WithRoom(s.accounts, Key(call.username, call.remoteIP), max, v.account) == s.accounts && WithRoom(s.ips, call.remoteIP, max, v.ip) == s.ips
    ensures Serve(s, call, max, v).1 == KeepStep(full, call).1
    ensures Same(Serve(s, call, max, v).0, KeepStep(full, call).0, call.now)
  {
    hide Failed, Stale, Agrees;
    if call.CheckCall? {
      CheckAgrees(s, full, call);
    } else {
      FailAgrees(s.accounts, full.accounts, call.now, Key(call.username, call.remoteIP), ACCOUNT_LIMIT);
      FailAgrees(s.ips, full.ips, call.now, call.remoteIP, IP_LIMIT);
    }
  }

  lemma ClearAgrees<K(!new)>(m: map<K, Entry>, full: map<K, Entry>, now: Time, k: K)
    requires Agrees(m, full, now)
    ensures Agrees(m - {k}, full - {k}, now)
  {
    hide Stale;
  }

  lemma StepAgrees(s: State, full: State, call: Call, max: nat, v: Victims, now: Time)
    requires Same(s, full, now) && !Evicts(s, call, max)
    requires call.ClearCall? || (0 < call.now && now <= call.now)
    ensures Step(s, call, max, v).1 == KeepStep(full, call).1
    ensures Same(Step(s, call, max, v).0, KeepStep(full, call).0, if call.ClearCall? then now else call.now)
  {
    hide Failed, Stale, Agrees, Purged;
    if call.ClearCall? {
      ClearAgrees(s.accounts, full.accounts, now, Key(call.username, call.remoteIP));
    } else {
      hide Serve, KeepStep;
      PurgeAgrees(s.accounts, full.accounts, now, call.now);
      PurgeAgrees(s.ips, full.ips, now, call.now);
      ServeAgrees(CleanedUp(s, call.now), full, call, max, v);
    }
  }

  lemma CheckAgrees(s: State, full: State, call: Call)
    requires call.CheckCall? && Same(s, full, call.now)
    ensures RetryAfter(s.accounts, Key(call.username, call.remoteIP), call.now) == RetryAfter(full.accounts, Key(call.username, call.remoteIP), call.now)
    ensures RetryAfter(s.ips, call.remoteIP, call.now) == RetryAfter(full.ips, call.remoteIP, call.now)
  {
  }

  lemma {:induction false} RunsAgree(turns: seq<Turn>, max: nat)
    requires Monotone(turns) && NoEviction(turns, max)
    ensures Run(turns, max).1 == KeepRun(turns).1
    ensures Same(Run(turns, max).0, KeepRun(turns).0, Clock(turns))
  {
    if turns != [] {
      var n := |turns| - 1;
      RunsAgree(turns[..n], max);
      hide Step, KeepStep, Evicts, Same;
      StepAgrees(Run(turns[..n], max).0, KeepRun(turns[..n]).0, turns[n].call, max, turns[n].victims, Clock(turns[..n]));
    } else {
      NothingStored();
    }
  }

  lemma NothingStored()
    ensures Same(EMPTY, EMPTY, 0)
  {
  }

  /** With a clock that does not go back and no eviction, every answer of the limiter is
      that of one which never forgets. */
  lemma ForgettingUnobservable(turns: seq<Turn>, max: nat)
    requires Monotone(turns) && NoEviction(turns, max)
    ensures Run(turns, max).1 == KeepRun(turns).1
  {
    RunsAgree(turns, max);
  }

  /****** block events are paid for by failures ******/

  function AccountFailures(turns: seq<Turn>, key: Key): nat {
    if turns == [] then 0
    else
      var call := turns[|turns| - 1].call;
      AccountFailures(turns[..|turns| - 1], key) + (if call.FailureCall? && Key(call.username, call.remoteIP) == key then 1 else 0)
  }

  function AccountBlocks(turns: seq<Turn>, key: Key, max: nat): nat {
    if turns == [] then 0
    else
      var n := |turns| - 1;
      var call := turns[n].call;
      AccountBlocks(turns[..n], key, max)
      + (if call.FailureCall? && Key(call.username, call.remoteIP) == key && Step(Run(turns[..n], max).0, call, max, turns[n].victims).1.account then 1 else 0)
  }

  function IpFailures(turns: seq<Turn>, ip: string): nat {
    if turns == [] then 0
    else
      var call := turns[|turns| - 1].call;
      IpFailures(turns[..|turns| - 1], ip) + (if call.FailureCall? && call.remoteIP == ip then 1 else 0)
  }

  function IpBlocks(turns: seq<Turn>, ip: string, max: nat): nat {
    if turns == [] then 0
    else
      var n := |turns| - 1;
      var call := turns[n].call;
      IpBlocks(turns[..n], ip, max)
      + (if call.FailureCall? && call.remoteIP == ip && Step(Run(turns[..n], max).0, call, max, turns[n].victims).1.ip then 1 else 0)
  }

  /** Failures of the open window that no block event has been reported for. */
  function Pending<K(==)>(m: map<K, Entry>, k: K, limit: nat): nat {
    if k in m && m[k].failures < limit then m[k].failures else 0
  }

  lemma FailurePays(e: Entry, now: Time, limit: nat)
    requires limit > 0
    ensures var (f, blocked) := Failed(e, now, limit);
      var open := if e.failures < limit then e.failures else 0;
      (if f.failures < limit then f.failures else 0) + (if blocked then limit else 0) <= open + 1
  {
  }

  lemma PurgePays<K(!new)>(m: map<K, Entry>, k: K, limit: nat, now: Time)
    ensures Pending(Purged(m, now), k, limit) <= Pending(m, k, limit)
  {
  }

  lemma AccountStepPays(s: State, call: Call, max: nat, v: Victims, key: Key)
    ensures var (t, answer) := Step(s, call, max, v);
      var mine := call.FailureCall? && Key(call.username, call.remoteIP) == key;
      Pending(t.accounts, key, ACCOUNT_LIMIT) + (if mine && answer.account then ACCOUNT_LIMIT else 0)
      <= Pending(s.accounts, key, ACCOUNT_LIMIT) + (if mine then 1 else 0)
  {
    hide Failed, Stale;
    if !call.ClearCall? {
      PurgePays(s.accounts, key, ACCOUNT_LIMIT, call.now);
      if call.FailureCall? {
        var t := CleanedUp(s, call.now);
        FailurePays(Get(WithRoom(t.accounts, key, max, v.account), key), call.now, ACCOUNT_LIMIT);
      }
    }
  }

  lemma IpStepPays(s: State, call: Call, max: nat, v: Victims, ip: string)
    ensures var (t, answer) := Step(s, call, max, v);
      var mine := call.FailureCall? && call.remoteIP == ip;
      Pending(t.ips, ip, IP_LIMIT) + (if mine && answer.ip then IP_LIMIT else 0)
      <= Pending(s.ips, ip, IP_LIMIT) + (if mine then 1 else 0)
  {
    hide Failed, Stale;
    if !call.ClearCall? {
      PurgePays(s.ips, ip, IP_LIMIT, call.now);
      if call.FailureCall? {
        var t := CleanedUp(s, call.now);
        FailurePays(Get(WithRoom(t.ips, ip, max, v.ip), ip), call.now, IP_LIMIT);
      }
    }
  }

  /** Through every sequence of calls, whatever is evicted, forgotten or cleared and
      however the clock runs, each reported block took its limit of failures. */
  lemma {:induction false} AccountBlocksBounded(turns: seq<Turn>, key: Key, max: nat)
    ensures AccountBlocks(turns, key, max) * ACCOUNT_LIMIT + Pending(Run(turns, max).0.accounts, key, ACCOUNT_LIMIT)
      <= AccountFailures(turns, key)
  {
    hide Step, Pending;
    if turns == [] {
      assert Pending(EMPTY.accounts, key, ACCOUNT_LIMIT) == 0 by { NothingPending(key); }
    } else {
      var n := |turns| - 1;
      AccountBlocksBounded(turns[..n], key, max);
      AccountStepPays(Run(turns[..n], max).0, turns[n].call, max, turns[n].victims, key);
    }
  }

  lemma NothingPending(key: Key)
    ensures Pending(EMPTY.accounts, key, ACCOUNT_LIMIT) == 0 && Pending(EMPTY.ips, key.remoteIP, IP_LIMIT) == 0
  {
  }

  lemma {:induction false} IpBlocksBounded(turns: seq<Turn>, ip: string, max: nat)
    ensures IpBlocks(turns, ip, max) * IP_LIMIT + Pending(Run(turns, max).0.ips, ip, IP_LIMIT) <= IpFailures(turns, ip)
  {
    hide Step, Pending;
    if turns == [] {
      assert Pending(EMPTY.ips, ip, IP_LIMIT) == 0 by { NothingPending(Key("", ip)); }
    } else {
      var n := |turns| - 1;
      IpBlocksBounded(turns[..n], ip, max);
      IpStepPays(Run(turns[..n], max).0, turns[n].call, max, turns[n].victims, ip);
    }
  }

  /****** who is blocked, and for how long ******/

  /** What one call means to one key. */
  datatype Mark = Fails(now: Time) | Clears | Passes

  function AccountMarks(turns: seq<Turn>, key: Key): (r: seq<Mark>)
    ensures |r| == |turns|
  {
    seq(|turns|, i requires 0 <= i < |turns| =>
      var call := turns[i].call;
      if call.FailureCall? && Key(call.username, call.remoteIP) == key then Fails(call.now)
      else if call.ClearCall? && Key(call.username, call.remoteIP) == key then Clears
      else Passes)
  }

  function IpMarks(turns: seq<Turn>, ip: string): (r: seq<Mark>)
    ensures |r| == |turns|
  {
    seq(|turns|, i requires 0 <= i < |turns| =>
      var call := turns[i].call;
      if call.FailureCall? && call.remoteIP == ip then Fails(call.now) else Passes)
  }

  /** The failures of the open window, oldest first. A window opens with a failure, takes in
      those of the next five minutes, and a later failure opens another one. */
  function OpenWindow(marks: seq<Mark>): seq<Time> {
    if marks == [] then []
    else
      var w := OpenWindow(marks[..|marks| - 1]);
      match marks[|marks| - 1]
      case Fails(now) => if w == [] || now > w[0] + 5 * 60_000_000_000 then [now] else w + [now]
      case Clears => []
      case Passes => w
  }

  /** A full window blocks for fifteen minutes from its last failure. */
  function Wait(w: seq<Time>, limit: nat, now: Time): nat {
    if |w| >= limit && w != [] && now < w[|w| - 1] + 15 * 60_000_000_000 then w[|w| - 1] + 15 * 60_000_000_000 - now else 0
  }

  /** The entry of a key is its open window. */
  ghost predicate Records<K(!new)>(m: map<K, Entry>, k: K, w: seq<Time>, limit: nat) {
    && (k in m <==> w != [])
    && (w != [] ==> 0 < w[0] && m[k] == Entry(w[0], if |w| >= limit then w[|w| - 1] + BLOCK else 0, w[|w| - 1], |w|))
  }

  lemma FailureRecords<K(!new)>(m: map<K, Entry>, k: K, marks: seq<Mark>, limit: nat, now: Time)
    requires Records(m, k, OpenWindow(marks), limit) && 0 < limit && 0 < now
    ensures var f, w := Failed(Get(m, k), now, limit), OpenWindow(marks + [Fails(now)]);
      Records(m[k := f.0], k, w, limit) && f.1 == (|w| == limit)
  {
    assert (marks + [Fails(now)])[..|marks|] == marks;
  }

  lemma MarksMore(turns: seq<Turn>, last: Turn, key: Key, ip: string)
    ensures AccountMarks(turns + [last], key) == AccountMarks(turns, key) + [AccountMarks([last], key)[0]]
    ensures IpMarks(turns + [last], ip) == IpMarks(turns, ip) + [IpMarks([last], ip)[0]]
  {
  }

  lemma WindowPasses(marks: seq<Mark>, mark: Mark)
    ensures mark == Passes ==> OpenWindow(marks + [mark]) == OpenWindow(marks)
    ensures mark == Clears ==> OpenWindow(marks + [mark]) == []
  {
    assert (marks + [mark])[..|marks|] == marks;
  }

  lemma MarkTime(last: Turn, key: Key, ip: string)
    ensures AccountMarks([last], key)[0] == AccountMarks([Turn(last.call, Victims(key, ""))], key)[0]
    ensures IpMarks([last], ip)[0] == IpMarks([Turn(last.call, Victims(Key("", ""), ""))], ip)[0]
  {
  }

  lemma KeepStepAccounts(s: State, call: Call, key: Key, marks: seq<Mark>, mark: Mark)
    requires Records(s.accounts, key, OpenWindow(marks), 8)
    requires mark == AccountMarks([Turn(call, Victims(key, ""))], key)[0] && (call.FailureCall? ==> 0 < call.now)
    ensures Records(KeepStep(s, call).0.accounts, key, OpenWindow(marks + [mark]), 8)
    ensures mark.Fails? ==> KeepStep(s, call).1.account == (|OpenWindow(marks + [mark])| == 8)
  {
    hide Failed, OpenWindow;
    WindowPasses(marks, mark);
    if call.FailureCall? && mark.Fails? { FailureRecords(s.accounts, key, marks, 8, call.now); }
  }

  lemma KeepStepIps(s: State, call: Call, ip: string, marks: seq<Mark>, mark: Mark)
    requires Records(s.ips, ip, OpenWindow(marks), 40)
    requires mark == IpMarks([Turn(call, Victims(Key("", ""), ""))], ip)[0] && (call.FailureCall? ==> 0 < call.now)
    ensures Records(KeepStep(s, call).0.ips, ip, OpenWindow(marks + [mark]), 40)
    ensures mark.Fails? ==> KeepStep(s, call).1.ip == (|OpenWindow(marks + [mark])| == 40)
  {
    hide Failed, OpenWindow;
    WindowPasses(marks, mark);
    if call.FailureCall? && mark.Fails? { FailureRecords(s.ips, ip, marks, 40, call.now); }
  }

  lemma {:induction false} EntriesAreWindows(turns: seq<Turn>, key: Key, ip: string)
    requires Monotone(turns)
    ensures Records(KeepRun(turns).0.accounts, key, OpenWindow(AccountMarks(turns, key)), 8)
    ensures Records(KeepRun(turns).0.ips, ip, OpenWindow(IpMarks(turns, ip)), 40)
  {
    if turns == [] {
      assert OpenWindow([]) == [];
    } else {
      hide KeepStep, Records, OpenWindow, AccountMarks, IpMarks;
      var init, last := turns[..|turns| - 1], turns[|turns| - 1];
      assert turns == init + [last];
      EntriesAreWindows(init, key, ip);
      MarkTime(last, key, ip);
      MarksMore(init, last, key, ip);
      KeepStepAccounts(KeepRun(init).0, last.call, key, AccountMarks(init, key), AccountMarks([last], key)[0]);
      KeepStepIps(KeepRun(init).0, last.call, ip, IpMarks(init, ip), IpMarks([last], ip)[0]);
    }
  }

  lemma LastAnswer(turns: seq<Turn>, last: Turn)
    ensures KeepRun(turns + [last]).1 == KeepRun(turns).1 + [KeepStep(KeepRun(turns).0, last.call).1]
    ensures Monotone(turns + [last]) ==> Monotone(turns) && (last.call.ClearCall? || 0 < last.call.now)
  {
    assert (turns + [last])[..|turns|] == turns;
  }

  /** Through every sequence of calls, a Check waits exactly for the full windows: eight
      failures of the account from this peer, or forty of the peer, in an open window, block
      from the last of them for fifteen minutes, and nothing else blocks. */
  lemma ChecksExactly(turns: seq<Turn>, last: Turn, max: nat)
    requires last.call.CheckCall? && Monotone(turns + [last]) && NoEviction(turns + [last], max)
    ensures var c := last.call;
      Run(turns + [last], max).1 == Run(turns, max).1 + [Retry(Max(
        Wait(OpenWindow(AccountMarks(turns, Key(c.username, c.remoteIP))), 8, c.now),
        Wait(OpenWindow(IpMarks(turns, c.remoteIP)), 40, c.now)))]
  {
    hide KeepRun, Run, NoEviction, OpenWindow;
    var c := last.call;
    RunsAgree(turns + [last], max);
    LastAnswer(turns, last);
    EarlierRun(turns, last, max);
    RunsAgree(turns, max);
    EntriesAreWindows(turns, Key(c.username, c.remoteIP), c.remoteIP);
  }

  /** A failure is reported as a block exactly when it is the eighth of the account, or
      the fortieth of the peer, in its open window. */
  lemma TransitionsExactly(turns: seq<Turn>, last: Turn, max: nat)
    requires last.call.FailureCall? && Monotone(turns + [last]) && NoEviction(turns + [last], max)
    ensures var c := last.call;
      Run(turns + [last], max).1 == Run(turns, max).1 + [Transitions(
        |OpenWindow(AccountMarks(turns + [last], Key(c.username, c.remoteIP)))| == 8,
        |OpenWindow(IpMarks(turns + [last], c.remoteIP))| == 40)]
  {
    hide KeepRun, Run, NoEviction, OpenWindow, Records;
    var c := last.call;
    var key := Key(c.username, c.remoteIP);
    RunsAgree(turns + [last], max);
    LastAnswer(turns, last);
    EarlierRun(turns, last, max);
    RunsAgree(turns, max);
    EntriesAreWindows(turns, key, c.remoteIP);
    MarksMore(turns, last, key, c.remoteIP);
    MarkTime(last, key, c.remoteIP);
    KeepStepAccounts(KeepRun(turns).0, c, key, AccountMarks(turns, key), AccountMarks([last], key)[0]);
    KeepStepIps(KeepRun(turns).0, c, c.remoteIP, IpMarks(turns, c.remoteIP), IpMarks([last], c.remoteIP)[0]);
  }

  lemma EarlierRun(turns: seq<Turn>, last: Turn, max: nat)
    ensures NoEviction(turns + [last], max) ==> NoEviction(turns, max)
  {
    assert (turns + [last])[..|turns|] == turns;
  }

  /** The entries that are kept: seen within the last twenty minutes, or still blocking. */
  ghost predicate Remembered<K(!new)>(m: map<K, Entry>, kept: map<K, Entry>, now: Time) {
    && (forall k :: k in kept <==> k in m && (m[k].lastSeen + 20 * 60_000_000_000 >= now || now < m[k].blockedUntil))
    && (forall k | k in kept :: kept[k] == m[k])
  }

  /** A cleanup is due a minute after the last one, and then forgets exactly the entries that
      were last seen more than twenty minutes ago and do not block. */
  lemma CleanupForgets(s: State, now: Time)
    ensures var t := CleanedUp(s, now);
      if s.lastCleanup == 0 || now >= s.lastCleanup + 60_000_000_000 then
        t.lastCleanup == now && Remembered(s.accounts, t.accounts, now) && Remembered(s.ips, t.ips, now)
      else t == s
  {
    if s.lastCleanup == 0 || now >= s.lastCleanup + 60_000_000_000 {
      PurgedKept(s.accounts, now);
      PurgedKept(s.ips, now);
    }
  }

  lemma PurgedKept<K(!new)>(m: map<K, Entry>, now: Time)
    ensures Remembered(m, Purged(m, now), now)
  {
  }

  /** Eight failures of one account from one peer within five minutes of the first, with no
      success between, block every Check of the next fifteen minutes. */
  lemma EightFailuresBlock(turns: seq<Turn>, last: Turn, max: nat, times: seq<Time>) returns (after: nat)
    requires last.call.CheckCall? && Monotone(turns + [last]) && NoEviction(turns + [last], max)
    requires |times| >= 8 && forall i | 0 <= i < |times| :: times[i] <= times[0] + WINDOW
    requires FailureTimes(AccountMarks(turns, Key(last.call.username, last.call.remoteIP))) == Some(times)
    requires last.call.now < times[|times| - 1] + BLOCK
    ensures Run(turns + [last], max).1 == Run(turns, max).1 + [Retry(after)]
    ensures after >= times[|times| - 1] + BLOCK - last.call.now > 0
  {
    hide Run, NoEviction, OpenWindow, FailureTimes, Monotone;
    var key := Key(last.call.username, last.call.remoteIP);
    OneWindow(AccountMarks(turns, key), times);
    ChecksExactly(turns, last, max);
    after := Max(Wait(times, 8, last.call.now), Wait(OpenWindow(IpMarks(turns, last.call.remoteIP)), 40, last.call.now));
  }

  datatype Option<+T> = None | Some(value: T)

  /** The times of all failures, unless a success cleared some. */
  function FailureTimes(marks: seq<Mark>): Option<seq<Time>> {
    if marks == [] then Some([])
    else
      var before := FailureTimes(marks[..|marks| - 1]);
      match marks[|marks| - 1]
      case Fails(now) => if before.Some? then Some(before.value + [now]) else None
      case Clears => None
      case Passes => before
  }

  lemma {:induction false} OneWindow(marks: seq<Mark>, times: seq<Time>)
    requires FailureTimes(marks) == Some(times) && forall i | 0 <= i < |times| :: times[i] <= times[0] + WINDOW
    ensures OpenWindow(marks) == times
  {
    if marks != [] {
      var init := marks[..|marks| - 1];
      match marks[|marks| - 1]
      case Passes => OneWindow(init, times);
      case Fails(now) =>
        var before := FailureTimes(init).value;
        assert forall i | 0 <= i < |before| :: before[i] == times[i];
        OneWindow(init, before);
        assert before != [] ==> times[|before|] == now;
      case Clears =>
    }
  }
}
