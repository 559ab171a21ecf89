/**
 Brute-force protection of the login endpoint (`login_guard`, `routers/auth.login`): lock an
 account after so many consecutive failures, block an address after so many failures inside
 a sliding window.  Logins are handled one at a time; the clock is read where the code does.
 */
module LoginGuard {
  import opened Common

  /** Seconds; a threshold of 0 disables its gate. */
  datatype Settings = Settings(
    lockThreshold: nat, lockSeconds: real,
    ipThreshold: nat, windowSeconds: real, blockSeconds: real)

  datatype Account = Account(fails: nat, lockedUntil: Option<real>)
  datatype Address = Address(events: seq<real>, blockedUntil: Option<real>)

  // ----- the account gate, on values; None is "no entry" -----

  predicate Locked(a: Option<Account>, now: real) {
    a.Some? && a.value.lockedUntil.Some? && a.value.lockedUntil.value > now
  }

  /** `account_status`: an expired lock is dropped together with its count. */
  function AccountChecked(a: Option<Account>, now: real): Option<Account> {
    if a.Some? && a.value.lockedUntil.Some? && !Locked(a, now) then None else a
  }

  function AccountFailed(a: Option<Account>, now: real, cfg: Settings): Option<Account> {
    if cfg.lockThreshold == 0 then a
    else
      var st := if a.Some? then a.value else Account(0, None);
      var fails := st.fails + 1;
      Some(Account(fails, if fails >= cfg.lockThreshold && st.lockedUntil.None?
                          then Some(now + cfg.lockSeconds) else st.lockedUntil))
  }

  // ----- the address gate, on values -----

  predicate Blocked(a: Option<Address>, now: real) {
    a.Some? && a.value.blockedUntil.Some? && a.value.blockedUntil.value > now
  }

  function AddressChecked(a: Option<Address>, now: real): Option<Address> {
    if a.Some? && a.value.blockedUntil.Some? && !Blocked(a, now) then None else a
  }

  /** `[t for t in events if now - t < window]`. */
  function Recent(events: seq<real>, now: real, window: real): seq<real> {
    if events == [] then []
    else if now - events[0] < window then [events[0]] + Recent(events[1..], now, window)
    else Recent(events[1..], now, window)
  }

  function AddressFailed(a: Option<Address>, now: real, cfg: Settings): Option<Address> {
    if cfg.ipThreshold == 0 then a
    else
      var st := if a.Some? then a.value else Address([], None);
      var events := Recent(st.events, now, cfg.windowSeconds) + [now];
      Some(Address(events, if |events| >= cfg.ipThreshold && st.blockedUntil.None?
                           then Some(now + cfg.blockSeconds) else st.blockedUntil))
  }

  // ----- one login, on values -----

  function Entry<V>(m: map<string, V>, k: string): Option<V> {
    if k in m then Some(m[k]) else None
  }

  function With<V>(m: map<string, V>, k: string, o: Option<V>): map<string, V> {
    if o.Some? then m[k := o.value] else m - {k}
  }

  datatype State = State(accounts: map<string, Account>, addresses: map<string, Address>)

  /** `gateAt`, `lockAt`, `failAt`: the clock in ip_status, account_status and record_failure. */
  datatype Attempt = Attempt(user: string, ip: string, correct: bool, gateAt: real, lockAt: real, failAt: real)

  datatype Result = AddressBlocked | AccountLocked | WrongPassword | Accepted

  function Outcome(s: State, a: Attempt): Result {
    if a.ip != "" && Blocked(Entry(s.addresses, a.ip), a.gateAt) then AddressBlocked
    else if Locked(Entry(s.accounts, a.user), a.lockAt) then AccountLocked
    else if a.correct then Accepted
    else WrongPassword
  }

  /** The address gate lets the attempt through: no entry, no block, or an expired one. */
  predicate AddressOpen(s: State, a: Attempt) {
    || a.ip == "" || a.ip !in s.addresses || s.addresses[a.ip].blockedUntil.None?
    || s.addresses[a.ip].blockedUntil.value <= a.gateAt
  }

  predicate AccountOpen(s: State, a: Attempt) {
    || a.user !in s.accounts || s.accounts[a.user].lockedUntil.None?
    || s.accounts[a.user].lockedUntil.value <= a.lockAt
  }

  /** The password is checked: both gates are open. */
  predicate LetThrough(s: State, a: Attempt) {
    AddressOpen(s, a) && AccountOpen(s, a)
  }

  /** Only the right password behind two open gates is accepted; each refusal has its one reason. */
  ghost predicate Judged(s: State, a: Attempt, r: Result) {
    && (r == Accepted <==> LetThrough(s, a) && a.correct)
    && (r == WrongPassword <==> LetThrough(s, a) && !a.correct)
    && (r == AddressBlocked <==> !AddressOpen(s, a))
    && (r == AccountLocked <==> AddressOpen(s, a) && !AccountOpen(s, a))
  }

  lemma OutcomeIsJudged(s: State, a: Attempt)
    ensures Judged(s, a, Outcome(s, a))
  {
  }

  /** The account entry of `user` after the attempt. */
  function AccountAfter(s: State, a: Attempt, user: string, cfg: Settings): Option<Account> {
    var st := Entry(s.accounts, user);
    if user != a.user then st
    else match Outcome(s, a)
      case AddressBlocked => st
      case AccountLocked => st
      case Accepted => None
      case WrongPassword => AccountFailed(AccountChecked(st, a.lockAt), a.failAt, cfg)
  }

  /** The address entry of `ip` after the attempt. */
  function AddressAfter(s: State, a: Attempt, ip: string, cfg: Settings): Option<Address> {
    var st := Entry(s.addresses, ip);
    if ip != a.ip || ip == "" then st
    else if Outcome(s, a) == WrongPassword then AddressFailed(AddressChecked(st, a.gateAt), a.failAt, cfg)
    else AddressChecked(st, a.gateAt)
  }

  function After(s: State, a: Attempt, cfg: Settings): State {
    State(With(s.accounts, a.user, AccountAfter(s, a, a.user, cfg)),
          With(s.addresses, a.ip, AddressAfter(s, a, a.ip, cfg)))
  }

  lemma EntriesAfter(s: State, a: Attempt, user: string, ip: string, cfg: Settings)
    ensures Entry(After(s, a, cfg).accounts, user) == AccountAfter(s, a, user, cfg)
    ensures Entry(After(s, a, cfg).addresses, ip) == AddressAfter(s, a, ip, cfg)
  {
  }

  // ----- the module -----

  class Guard {
    var accounts: map<string, Account>
    var addresses: map<string, Address>

    constructor ()
      ensures Value() == State(map[], map[])
    {
      accounts, addresses := map[], map[];
    }

    function Value(): State
      reads this
    {
      State(accounts, addresses)
    }

    method AccountStatus(user: string, now: real) returns (locked: bool)
      modifies this`accounts
      ensures locked == Locked(Entry(old(accounts), user), now)
      ensures accounts == With(old(accounts), user, AccountChecked(Entry(old(accounts), user), now))
    {
      if user !in accounts {
        return false;
      }
      var st := accounts[user];
      if st.lockedUntil.Some? && st.lockedUntil.value > now {
        return true;
      }
      if st.lockedUntil.Some? {
        accounts := accounts - {user};
      }
      return false;
    }

    method IpStatus(ip: string, now: real) returns (blocked: bool)
      modifies this`addresses
      ensures blocked == (ip != "" && Blocked(Entry(old(addresses), ip), now))
      ensures addresses == if ip == "" then old(addresses)
                           else With(old(addresses), ip, AddressChecked(Entry(old(addresses), ip), now))
    {
      if ip == "" || ip !in addresses {
        return false;
      }
      var st := addresses[ip];
      if st.blockedUntil.Some? && st.blockedUntil.value > now {
        return true;
      }
      if st.blockedUntil.Some? {
        addresses := addresses - {ip};
      }
      return false;
    }

    method RecordFailure(user: string, ip: string, now: real, cfg: Settings)
      modifies this
      ensures accounts == With(old(accounts), user, AccountFailed(Entry(old(accounts), user), now, cfg))
      ensures addresses == if ip == "" then old(addresses)
                           else With(old(addresses), ip, AddressFailed(Entry(old(addresses), ip), now, cfg))
    {
      if cfg.lockThreshold > 0 {
        var st := if user in accounts then accounts[user] else Account(0, None);
        st := st.(fails := st.fails + 1);
        if st.fails >= cfg.lockThreshold && st.lockedUntil.None? {
          st := st.(lockedUntil := Some(now + cfg.lockSeconds));
        }
        accounts := accounts[user := st];
      }
      if ip != "" && cfg.ipThreshold > 0 {
        var ist := if ip in addresses then addresses[ip] else Address([], None);
        var events := KeepRecent(ist.events, now, cfg.windowSeconds);
        events := events + [now];
        ist := ist.(events := events);
        if |events| >= cfg.ipThreshold && ist.blockedUntil.None? {
          ist := ist.(blockedUntil := Some(now + cfg.blockSeconds));
        }
        addresses := addresses[ip := ist];
      }
    }

    method KeepRecent(all: seq<real>, now: real, window: real) returns (events: seq<real>)
      ensures events == Recent(all, now, window)
    {
      events := [];
      for i := 0 to |all|
        invariant events + Recent(all[i..], now, window) == Recent(all, now, window)
      {
        assert all[i..][1..] == all[i + 1..];
        if now - all[i] < window {
          events := events + [all[i]];
        }
      }
    }

    method RecordSuccess(user: string)
      modifies this`accounts
      ensures accounts == old(accounts) - {user}
    {
      accounts := accounts - {user};
    }

    /** The endpoint: address gate, account gate, password, bookkeeping. */
    method Login(a: Attempt, cfg: Settings) returns (r: Result)
      modifies this
      ensures r == Outcome(old(Value()), a) && Judged(old(Value()), a, r)
      ensures Value() == After(old(Value()), a, cfg)
    {
      OutcomeIsJudged(Value(), a);
      var blocked := IpStatus(a.ip, a.gateAt);
      if blocked {
        return AddressBlocked;
      }
      var locked := AccountStatus(a.user, a.lockAt);
      if locked {
        return AccountLocked;
      }
      if !a.correct {
        RecordFailure(a.user, a.ip, a.failAt, cfg);
        return WrongPassword;
      }
      RecordSuccess(a.user);
      return Accepted;
    }
  }

  // ----- runs -----

  function Run(run: seq<Attempt>, cfg: Settings): State {
    if run == [] then State(map[], map[])
    else After(Run(run[..|run| - 1], cfg), run[|run| - 1], cfg)
  }

  /** Logins are served one after the other by a clock that never goes back. */
  ghost predicate Ordered(run: seq<Attempt>) {
    && (forall i | 0 <= i < |run| :: run[i].gateAt <= run[i].lockAt <= run[i].failAt)
    && (forall i, j | 0 <= i < j < |run| :: run[i].failAt <= run[j].gateAt)
  }

  /** The failures of `user` since its last success, one attempt later. */
  function MoreAccountFailures(earlier: seq<real>, s: State, a: Attempt, user: string): seq<real> {
    if a.user != user || !LetThrough(s, a) then earlier
    else if a.correct then []
    else earlier + [a.failAt]
  }

  /** When the password of `user` was checked and found wrong, since the last success. */
  function AccountFailures(run: seq<Attempt>, user: string, cfg: Settings): seq<real> {
    if run == [] then []
    else
      var rest := run[..|run| - 1];
      MoreAccountFailures(AccountFailures(rest, user, cfg), Run(rest, cfg), run[|run| - 1], user)
  }

  function MoreAddressFailures(earlier: seq<real>, s: State, a: Attempt, ip: string): seq<real> {
    if a.ip == ip && LetThrough(s, a) && !a.correct then earlier + [a.failAt] else earlier
  }

  /** When a password sent from `ip` was checked and found wrong. */
  function AddressFailures(run: seq<Attempt>, ip: string, cfg: Settings): seq<real> {
    if run == [] then []
    else
      var rest := run[..|run| - 1];
      MoreAddressFailures(AddressFailures(rest, ip, cfg), Run(rest, cfg), run[|run| - 1], ip)
  }

  ghost predicate Sorted(times: seq<real>) {
    forall i, j | 0 <= i < j < |times| :: times[i] <= times[j]
  }

  ghost predicate NoneAfter(times: seq<real>, t: real) {
    forall i | 0 <= i < |times| :: times[i] <= t
  }

  /** Any `n` + 1 consecutive entries span at least `gap`. */
  ghost predicate Spread(times: seq<real>, n: nat, gap: real) {
    forall k | 0 <= k && k + n < |times| :: times[k + n] - times[k] >= gap
  }

  // ----- the account gate over a run -----

  /** What the account entry knows about the failures `f`, everything up to time `t`. */
  ghost predicate AccountInvariant(st: Option<Account>, f: seq<real>, t: real, cfg: Settings) {
    && Sorted(f) && NoneAfter(f, t) && Spread(f, cfg.lockThreshold, cfg.lockSeconds)
    && match st
       case None => f == [] || f[|f| - 1] + cfg.lockSeconds <= t
       case Some(a) =>
         if a.lockedUntil.None? then
           && 0 < a.fails < cfg.lockThreshold && a.fails <= |f|
           && (a.fails < |f| ==> f[|f| - a.fails] - f[|f| - a.fails - 1] >= cfg.lockSeconds)
         else
           f != [] && a.lockedUntil.value == f[|f| - 1] + cfg.lockSeconds && cfg.lockThreshold <= |f|
  }

  lemma AccountCheckKeeps(st: Option<Account>, f: seq<real>, t: real, now: real, cfg: Settings)
    requires AccountInvariant(st, f, t, cfg) && t <= now
    ensures AccountInvariant(AccountChecked(st, now), f, now, cfg)
  {
  }

  lemma FailureAppended(f: seq<real>, t: real, now: real)
    requires Sorted(f) && NoneAfter(f, t) && t <= now
    ensures Sorted(f + [now]) && NoneAfter(f + [now], now)
  {
  }

  lemma AccountFailKeeps(st: Option<Account>, f: seq<real>, t: real, now: real, cfg: Settings)
    requires cfg.lockThreshold > 0 && t <= now
    requires AccountInvariant(st, f, t, cfg) && (st.Some? ==> st.value.lockedUntil.None?)
    ensures AccountInvariant(AccountFailed(st, now, cfg), f + [now], now, cfg)
  {
    var n, c, g := |f|, if st.Some? then st.value.fails else 0, f + [now];
    FailureAppended(f, t, now);
    forall k | 0 <= k && k + cfg.lockThreshold < |g| ensures g[k + cfg.lockThreshold] - g[k] >= cfg.lockSeconds {
      if k + cfg.lockThreshold == n {
        assert f[k] <= f[n - c - 1];
      } else {
        assert f[k + cfg.lockThreshold] - f[k] >= cfg.lockSeconds;
      }
    }
  }

  lemma AccountWrongKeeps(st: Option<Account>, f: seq<real>, a: Attempt, t: real, cfg: Settings)
    requires cfg.lockThreshold > 0 && a.gateAt <= a.lockAt <= a.failAt <= t && !Locked(st, a.lockAt)
    requires AccountInvariant(st, f, a.gateAt, cfg)
    ensures AccountInvariant(AccountFailed(AccountChecked(st, a.lockAt), a.failAt, cfg), f + [a.failAt], t, cfg)
  {
    var checked := AccountChecked(st, a.lockAt);
    AccountCheckKeeps(st, f, a.gateAt, a.lockAt, cfg);
    AccountFailKeeps(checked, f, a.lockAt, a.failAt, cfg);
    AccountLater(AccountFailed(checked, a.failAt, cfg), f + [a.failAt], a.failAt, t, cfg);
  }

  lemma AccountStepKeeps(s: State, a: Attempt, user: string, f: seq<real>, t: real, cfg: Settings)
    requires cfg.lockThreshold > 0 && a.gateAt <= a.lockAt <= a.failAt <= t
    requires AccountInvariant(Entry(s.accounts, user), f, a.gateAt, cfg)
    ensures AccountInvariant(AccountAfter(s, a, user, cfg), MoreAccountFailures(f, s, a, user), t, cfg)
  {
    var st := Entry(s.accounts, user);
    OutcomeIsJudged(s, a);
    if a.user == user && Outcome(s, a) == WrongPassword {
      AccountWrongKeeps(st, f, a, t, cfg);
    } else if a.user != user || Outcome(s, a) != Accepted {
      AccountLater(st, f, a.gateAt, t, cfg);
    }
  }

  lemma {:induction false} AccountRunKeeps(run: seq<Attempt>, user: string, t: real, cfg: Settings)
    requires cfg.lockThreshold > 0 && Ordered(run)
    requires forall i | 0 <= i < |run| :: run[i].failAt <= t
    ensures AccountInvariant(Entry(Run(run, cfg).accounts, user), AccountFailures(run, user, cfg), t, cfg)
    decreases |run|
  {
    if run != [] {
      var rest, a := run[..|run| - 1], run[|run| - 1];
      AccountRunKeeps(rest, user, a.gateAt, cfg);
      EntriesAfter(Run(rest, cfg), a, user, a.ip, cfg);
      AccountStepKeeps(Run(rest, cfg), a, user, AccountFailures(rest, user, cfg), t, cfg);
    }
  }

  lemma AccountLater(st: Option<Account>, f: seq<real>, t: real, later: real, cfg: Settings)
    requires AccountInvariant(st, f, t, cfg) && t <= later
    ensures AccountInvariant(st, f, later, cfg)
  {
  }

  /**
   Rate bound: in every run, any threshold + 1 failed password checks of one account with no
   success between them span at least the lockout time.
   */
  lemma AccountGuessingIsSlow(run: seq<Attempt>, user: string, k: nat, cfg: Settings)
    requires cfg.lockThreshold > 0 && Ordered(run)
    requires k + cfg.lockThreshold < |AccountFailures(run, user, cfg)|
    ensures AccountFailures(run, user, cfg)[k + cfg.lockThreshold] - AccountFailures(run, user, cfg)[k]
            >= cfg.lockSeconds
  {
    if run != [] {
      AccountRunKeeps(run, user, run[|run| - 1].failAt, cfg);
      assert Spread(AccountFailures(run, user, cfg), cfg.lockThreshold, cfg.lockSeconds);
    }
  }

  // ----- the address gate over a run -----

  function MinReal(a: real, b: real): real { if a <= b then a else b }

  /** The shortest time any ipThreshold + 1 failures can take. */
  function AddressGap(cfg: Settings): real {
    MinReal(cfg.windowSeconds, cfg.blockSeconds)
  }

  lemma {:induction false} RecentIsSuffix(f: seq<real>, e: nat, now: real, window: real) returns (cut: nat)
    requires Sorted(f) && e <= |f|
    ensures e <= cut <= |f| && Recent(f[e..], now, window) == f[cut..]
    ensures e < cut ==> now - f[cut - 1] >= window
    decreases |f| - e
  {
    if e == |f| {
      cut := e;
    } else if now - f[e] < window {
      cut := e;
      AllRecent(f, e, now, window);
    } else {
      assert f[e..][1..] == f[e + 1..];
      cut := RecentIsSuffix(f, e + 1, now, window);
    }
  }

  lemma {:induction false} AllRecent(f: seq<real>, e: nat, now: real, window: real)
    requires Sorted(f) && e < |f| && now - f[e] < window
    ensures Recent(f[e..], now, window) == f[e..]
    decreases |f| - e
  {
    assert f[e..][1..] == f[e + 1..];
    if e + 1 < |f| {
      assert f[e] <= f[e + 1];
      AllRecent(f, e + 1, now, window);
    }
  }

  /** `base`: failures up to the last expired block.  `cut`: the kept events start here. */
  ghost predicate AddressKnows(st: Option<Address>, f: seq<real>, base: nat, cut: nat, t: real, cfg: Settings) {
    && base <= cut <= |f|
    && match st
       case None => base == |f| && (f != [] ==> f[|f| - 1] + cfg.blockSeconds <= t)
       case Some(a) =>
         && a.events == f[cut..] && f != []
         && (0 < base < |f| ==> f[base] - f[base - 1] >= cfg.blockSeconds)
         && (base < cut ==> f[|f| - 1] - f[cut - 1] >= cfg.windowSeconds)
         && if a.blockedUntil.None? then base < |f| && |a.events| < cfg.ipThreshold
            else a.blockedUntil.value == f[|f| - 1] + cfg.blockSeconds && cfg.ipThreshold <= |f|
  }

  ghost predicate AddressInvariant(st: Option<Address>, f: seq<real>, t: real, cfg: Settings) {
    && Sorted(f) && NoneAfter(f, t) && Spread(f, cfg.ipThreshold, AddressGap(cfg))
    && exists base: nat, cut: nat :: AddressKnows(st, f, base, cut, t, cfg)
  }

  lemma KnowsIsInvariant(st: Option<Address>, f: seq<real>, base: nat, cut: nat, t: real, cfg: Settings)
    requires Sorted(f) && NoneAfter(f, t) && Spread(f, cfg.ipThreshold, AddressGap(cfg))
    requires AddressKnows(st, f, base, cut, t, cfg)
    ensures AddressInvariant(st, f, t, cfg)
  {
  }

  lemma AddressCheckKeeps(st: Option<Address>, f: seq<real>, t: real, now: real, cfg: Settings)
    requires AddressInvariant(st, f, t, cfg) && t <= now
    ensures AddressInvariant(AddressChecked(st, now), f, now, cfg)
  {
    var base: nat, cut: nat :| AddressKnows(st, f, base, cut, t, cfg);
    if AddressChecked(st, now) == st {
      assert AddressKnows(st, f, base, cut, now, cfg);
    } else {
      assert AddressKnows(None, f, |f|, |f|, now, cfg);
    }
  }

  /** The new failure respects the spread, whichever gate expired last. */
  lemma AddressSpreadGrows(st: Option<Address>, f: seq<real>, base: nat, cut: nat, t: real, now: real, cfg: Settings)
    requires t <= now && Sorted(f) && NoneAfter(f, t) && Spread(f, cfg.ipThreshold, AddressGap(cfg))
    requires AddressKnows(st, f, base, cut, t, cfg) && (st.Some? ==> st.value.blockedUntil.None?)
    requires cfg.ipThreshold > 0
    ensures Spread(f + [now], cfg.ipThreshold, AddressGap(cfg))
  {
    var g, n, m := f + [now], |f|, cfg.ipThreshold;
    forall k | 0 <= k && k + m < |g| ensures g[k + m] - g[k] >= AddressGap(cfg) {
      if k + m < n {
        assert f[k + m] - f[k] >= AddressGap(cfg);
      } else if st.None? || base == cut {
        assert f[k] <= f[base - 1];
      } else {
        assert f[k] <= f[cut - 1];
      }
    }
  }

  /** What is known once an open address has the events `f[next..]` and a failure at `now`. */
  lemma KnowsAfter(st: Option<Address>, f: seq<real>, base: nat, cut: nat, next: nat, t: real, now: real,
                   after: Address, cfg: Settings)
    requires t <= now && NoneAfter(f, t) && AddressKnows(st, f, base, cut, t, cfg)
    requires st.Some? ==> st.value.blockedUntil.None?
    requires cut <= next <= |f| && (cut < next ==> now - f[next - 1] >= cfg.windowSeconds)
    requires after.events == (f + [now])[next..]
    requires after.blockedUntil == if |after.events| >= cfg.ipThreshold then Some(now + cfg.blockSeconds) else None
    ensures AddressKnows(Some(after), f + [now], base, next, now, cfg)
  {
    var g := f + [now];
    assert 0 < base ==> g[base - 1] == f[base - 1];
    assert base < |f| ==> g[base] == f[base];
    assert 0 < next ==> g[next - 1] == f[next - 1];
  }

  lemma AddressKnowsMore(st: Option<Address>, f: seq<real>, base: nat, cut: nat, next: nat, t: real, now: real,
                         cfg: Settings)
    requires cfg.ipThreshold > 0 && t <= now && NoneAfter(f, t)
    requires AddressKnows(st, f, base, cut, t, cfg) && (st.Some? ==> st.value.blockedUntil.None?)
    requires cut <= next <= |f| && (cut < next ==> now - f[next - 1] >= cfg.windowSeconds)
    requires Recent(f[cut..], now, cfg.windowSeconds) == f[next..]
    ensures AddressKnows(AddressFailed(st, now, cfg), f + [now], base, next, now, cfg)
  {
    var after := AddressFailed(st, now, cfg).value;
    assert (if st.Some? then st.value.events else []) == f[cut..];
    assert after.events == f[next..] + [now] == (f + [now])[next..];
    KnowsAfter(st, f, base, cut, next, t, now, after, cfg);
  }

  lemma AddressFailKeeps(st: Option<Address>, f: seq<real>, t: real, now: real, cfg: Settings)
    requires cfg.ipThreshold > 0 && t <= now
    requires AddressInvariant(st, f, t, cfg) && (st.Some? ==> st.value.blockedUntil.None?)
    ensures AddressInvariant(AddressFailed(st, now, cfg), f + [now], now, cfg)
  {
    var base: nat, cut: nat :| AddressKnows(st, f, base, cut, t, cfg);
    AddressSpreadGrows(st, f, base, cut, t, now, cfg);
    var next := RecentIsSuffix(f, cut, now, cfg.windowSeconds);
    AddressKnowsMore(st, f, base, cut, next, t, now, cfg);
    FailureAppended(f, t, now);
    KnowsIsInvariant(AddressFailed(st, now, cfg), f + [now], base, next, now, cfg);
  }

  lemma AddressLater(st: Option<Address>, f: seq<real>, t: real, later: real, cfg: Settings)
    requires AddressInvariant(st, f, t, cfg) && t <= later
    ensures AddressInvariant(st, f, later, cfg)
  {
    var base: nat, cut: nat :| AddressKnows(st, f, base, cut, t, cfg);
    assert AddressKnows(st, f, base, cut, later, cfg);
  }

  lemma AddressStepKeeps(s: State, a: Attempt, ip: string, f: seq<real>, t: real, cfg: Settings)
    requires cfg.ipThreshold > 0 && ip != "" && a.gateAt <= a.failAt <= t
    requires AddressInvariant(Entry(s.addresses, ip), f, a.gateAt, cfg)
    ensures AddressInvariant(AddressAfter(s, a, ip, cfg), MoreAddressFailures(f, s, a, ip), t, cfg)
  {
    var st := Entry(s.addresses, ip);
    OutcomeIsJudged(s, a);
    if a.ip != ip {
      AddressLater(st, f, a.gateAt, t, cfg);
    } else {
      AddressCheckKeeps(st, f, a.gateAt, a.gateAt, cfg);
      if Outcome(s, a) == WrongPassword {
        AddressFailKeeps(AddressChecked(st, a.gateAt), f, a.gateAt, a.failAt, cfg);
        AddressLater(AddressAfter(s, a, ip, cfg), f + [a.failAt], a.failAt, t, cfg);
      } else {
        AddressLater(AddressChecked(st, a.gateAt), f, a.gateAt, t, cfg);
      }
    }
  }

  lemma {:induction false} AddressRunKeeps(run: seq<Attempt>, ip: string, t: real, cfg: Settings)
    requires cfg.ipThreshold > 0 && ip != "" && Ordered(run)
    requires forall i | 0 <= i < |run| :: run[i].failAt <= t
    ensures AddressInvariant(Entry(Run(run, cfg).addresses, ip), AddressFailures(run, ip, cfg), t, cfg)
    decreases |run|
  {
    if run == [] {
      assert AddressKnows(None, [], 0, 0, t, cfg);
    } else {
      var rest, a := run[..|run| - 1], run[|run| - 1];
      AddressRunKeeps(rest, ip, a.gateAt, cfg);
      EntriesAfter(Run(rest, cfg), a, a.user, ip, cfg);
      AddressStepKeeps(Run(rest, cfg), a, ip, AddressFailures(rest, ip, cfg), t, cfg);
    }
  }

  /**
   Rate bound: in every run, any ipThreshold + 1 failed password checks from one address,
   whatever the accounts, span at least the smaller of window and block time.
   */
  lemma AddressGuessingIsSlow(run: seq<Attempt>, ip: string, k: nat, cfg: Settings)
    requires cfg.ipThreshold > 0 && ip != "" && Ordered(run)
    requires k + cfg.ipThreshold < |AddressFailures(run, ip, cfg)|
    ensures AddressFailures(run, ip, cfg)[k + cfg.ipThreshold] - AddressFailures(run, ip, cfg)[k]
            >= MinReal(cfg.windowSeconds, cfg.blockSeconds)
  {
    if run != [] {
      AddressRunKeeps(run, ip, run[|run| - 1].failAt, cfg);
      assert Spread(AddressFailures(run, ip, cfg), cfg.ipThreshold, AddressGap(cfg));
    }
  }

  // ----- the gates open again -----

  /** Too few failures for a lock, or the last one too long ago. */
  predicate AccountQuiet(f: seq<real>, t: real, cfg: Settings) {
    cfg.lockThreshold == 0 || |f| < cfg.lockThreshold || f[|f| - 1] + cfg.lockSeconds <= t
  }

  predicate AddressQuiet(f: seq<real>, t: real, cfg: Settings) {
    cfg.ipThreshold == 0 || |f| < cfg.ipThreshold || f[|f| - 1] + cfg.blockSeconds <= t
  }

  lemma {:induction false} DisabledNeverLocks(run: seq<Attempt>, user: string, cfg: Settings)
    requires cfg.lockThreshold == 0
    ensures Entry(Run(run, cfg).accounts, user).None?
  {
    if run != [] {
      var rest, a := run[..|run| - 1], run[|run| - 1];
      DisabledNeverLocks(rest, user, cfg);
      EntriesAfter(Run(rest, cfg), a, user, a.ip, cfg);
    }
  }

  lemma {:induction false} DisabledNeverBlocks(run: seq<Attempt>, ip: string, cfg: Settings)
    requires cfg.ipThreshold == 0
    ensures Entry(Run(run, cfg).addresses, ip).None?
  {
    if run != [] {
      var rest, a := run[..|run| - 1], run[|run| - 1];
      DisabledNeverBlocks(rest, ip, cfg);
      EntriesAfter(Run(rest, cfg), a, a.user, ip, cfg);
    }
  }

  lemma QuietAccountIsOpen(run: seq<Attempt>, a: Attempt, cfg: Settings)
    requires Ordered(run) && forall i | 0 <= i < |run| :: run[i].failAt <= a.lockAt
    requires AccountQuiet(AccountFailures(run, a.user, cfg), a.lockAt, cfg)
    ensures AccountOpen(Run(run, cfg), a)
  {
    if cfg.lockThreshold == 0 {
      DisabledNeverLocks(run, a.user, cfg);
    } else {
      AccountRunKeeps(run, a.user, a.lockAt, cfg);
    }
  }

  lemma QuietIsUnblocked(st: Option<Address>, f: seq<real>, t: real, cfg: Settings)
    requires cfg.ipThreshold > 0 && AddressInvariant(st, f, t, cfg) && AddressQuiet(f, t, cfg)
    ensures st.None? || st.value.blockedUntil.None? || st.value.blockedUntil.value <= t
  {
    var base: nat, cut: nat :| AddressKnows(st, f, base, cut, t, cfg);
  }

  lemma QuietAddressIsOpen(run: seq<Attempt>, a: Attempt, cfg: Settings)
    requires Ordered(run) && forall i | 0 <= i < |run| :: run[i].failAt <= a.gateAt
    requires a.ip == "" || AddressQuiet(AddressFailures(run, a.ip, cfg), a.gateAt, cfg)
    ensures AddressOpen(Run(run, cfg), a)
  {
    if a.ip != "" {
      if cfg.ipThreshold == 0 {
        DisabledNeverBlocks(run, a.ip, cfg);
      } else {
        AddressRunKeeps(run, a.ip, a.gateAt, cfg);
        QuietIsUnblocked(Entry(Run(run, cfg).addresses, a.ip), AddressFailures(run, a.ip, cfg), a.gateAt, cfg);
      }
    }
  }

  /**
   Nobody is locked out for good: in every run, an attempt on an account and from an address that
   have fewer counted failures than their thresholds, or whose last one is as old as the lock and
   the block, has its password checked, and is accepted if and only if that is right.
   */
  lemma QuietAttemptIsJudged(run: seq<Attempt>, a: Attempt, cfg: Settings)
    requires Ordered(run) && a.gateAt <= a.lockAt && forall i | 0 <= i < |run| :: run[i].failAt <= a.gateAt
    requires AccountQuiet(AccountFailures(run, a.user, cfg), a.lockAt, cfg)
    requires a.ip == "" || AddressQuiet(AddressFailures(run, a.ip, cfg), a.gateAt, cfg)
    ensures Outcome(Run(run, cfg), a) == if a.correct then Accepted else WrongPassword
  {
    QuietAccountIsOpen(run, a, cfg);
    QuietAddressIsOpen(run, a, cfg);
    OutcomeIsJudged(Run(run, cfg), a);
  }
}
