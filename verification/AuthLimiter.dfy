/** server_common/tcpserver.cpp, `authenticationAllowed` and `recordAuthenticationFailure`:
    failed attempts counted per address and per account in one bounded table. */
module AuthLimiter {
  import opened Basics
  import opened Windows

  const MAX_FAILURES: nat := 5
  const MAX_ENTRIES: nat := 4096

  datatype Rate = Rate(failures: nat, startedAt: int)

  type Table = map<string, Rate>

  predicate Expired(r: Rate, now: int) {
    now - r.startedAt >= MINUTE
  }

  /** The table without its expired entries. */
  function Purged(t: Table, now: int): Table {
    map key | key in t && !Expired(t[key], now) :: t[key]
  }

  /** A full table is purged before it is consulted. */
  function Consulted(t: Table, now: int): Table {
    if |t| >= MAX_ENTRIES then Purged(t, now) else t
  }

  predicate BelowLimit(t: Table, key: string, now: int) {
    key !in t || Expired(t[key], now) || t[key].failures < MAX_FAILURES
  }

  predicate Allowed(t: Table, now: int, address: string, user: string) {
    var c := Consulted(t, now);
    |c| < MAX_ENTRIES && BelowLimit(c, "ip:" + address, now) && BelowLimit(c, "account:" + user, now)
  }

  /** One failure more for a key; a window start of zero reads as "never started". */
  function Bumped(t: Table, now: int, key: string): Table {
    if |t| >= MAX_ENTRIES && key !in t then t
    else if key !in t || t[key].startedAt == 0 || Expired(t[key], now) then t[key := Rate(1, now)]
    else t[key := Rate(t[key].failures + 1, t[key].startedAt)]
  }

  function Recorded(t: Table, now: int, address: string, user: string): Table {
    Bumped(Bumped(t, now, "ip:" + address), now, "account:" + user)
  }

  /** Purging never changes whether a key is below its limit. */
  lemma PurgeNeutral(t: Table, key: string, now: int)
    ensures BelowLimit(Purged(t, now), key, now) <==> BelowLimit(t, key, now)
    ensures BelowLimit(Consulted(t, now), key, now) <==> BelowLimit(t, key, now)
  {}

  lemma PurgedIsSmaller(t: Table, now: int)
    ensures |Purged(t, now)| <= |t|
  {
    SubmapIsSmaller(Purged(t, now).Keys, t.Keys);
  }

  lemma SubmapIsSmaller(a: set<string>, b: set<string>)
    requires a <= b
    ensures |a| <= |b|
  {
    assert b == a + (b - a);
  }

  /** The keys whose window is still running. */
  function Running(t: Table, now: int): set<string> {
    set key | key in t && now - t[key].startedAt < MINUTE
  }

  /** Exactly when an attempt is allowed: fewer than 4096 keys are running, and neither the
      address nor the account has five failures in its running window. */
  lemma AllowedIff(t: Table, now: int, address: string, user: string)
    ensures Allowed(t, now, address, user)
            <==> && |Running(t, now)| < 4096
                 && forall key | key in Running(t, now) && key in {"ip:" + address, "account:" + user} ::
                      t[key].failures < 5
  {
    hide BelowLimit;
    PurgeNeutral(t, "ip:" + address, now);
    PurgeNeutral(t, "account:" + user, now);
    assert Purged(t, now).Keys == Running(t, now);
    SubmapIsSmaller(Running(t, now), t.Keys);
    BelowMeans(t, "ip:" + address, now);
    BelowMeans(t, "account:" + user, now);
  }

  lemma BelowMeans(t: Table, key: string, now: int)
    ensures BelowLimit(t, key, now) <==> (key in Running(t, now) ==> t[key].failures < 5)
  {}

  class AuthenticationLimiter {
    var rates: Table

    constructor ()
      ensures rates == map[]
    {
      rates := map[];
    }

    /** The purge erases while iterating; entries may come in any order. */
    method AuthenticationAllowed(now: int, peerAddress: string, username: string) returns (allowed: bool)
      modifies this
      ensures rates == Consulted(old(rates), now)
      ensures allowed == Allowed(old(rates), now, peerAddress, username)
      ensures rates == if |old(rates)| < 4096 then old(rates)
                       else map key | key in Running(old(rates), now) :: old(rates)[key]
      ensures allowed
              <==> && |Running(old(rates), now)| < 4096
                   && forall key | key in Running(old(rates), now)
                                   && key in {"ip:" + peerAddress, "account:" + username} ::
                        old(rates)[key].failures < 5
    {
      AllowedIff(rates, now, peerAddress, username);
      if |rates| >= MAX_ENTRIES {
        var pending := rates.Keys;
        while pending != {}
          invariant pending <= rates.Keys <= old(rates).Keys
          invariant forall key | key in rates :: rates[key] == old(rates)[key]
          invariant forall key | key in old(rates) && key !in pending ::
                      key in rates <==> !Expired(old(rates)[key], now)
        {
          var key :| key in pending;
          pending := pending - {key};
          if Expired(rates[key], now) {
            rates := rates - {key};
          }
        }
        assert rates == Purged(old(rates), now);
      }
      var below := map key | key in {"ip:" + peerAddress, "account:" + username} :: BelowLimit(rates, key, now);
      allowed := |rates| < MAX_ENTRIES && below["ip:" + peerAddress] && below["account:" + username];
    }

    method Increment(now: int, key: string)
      modifies this
      ensures rates == Bumped(old(rates), now, key)
      ensures rates - {key} == old(rates) - {key}
      ensures key in rates <==> key in old(rates) || |old(rates)| < 4096
      ensures key in rates ==>
                rates[key] == if key in Running(old(rates), now) && old(rates)[key].startedAt != 0
                              then Rate(old(rates)[key].failures + 1, old(rates)[key].startedAt) else Rate(1, now)
    {
      if |rates| >= MAX_ENTRIES && key !in rates {
        return;
      }
      var state := if key in rates then rates[key] else Rate(0, 0);
      if state.startedAt == 0 || now - state.startedAt >= MINUTE {
        state := Rate(0, now);
      }
      rates := rates[key := state.(failures := state.failures + 1)];
    }

    method RecordAuthenticationFailure(now: int, peerAddress: string, username: string)
      modifies this
      ensures rates == Recorded(old(rates), now, peerAddress, username)
      ensures rates - {"ip:" + peerAddress, "account:" + username}
              == old(rates) - {"ip:" + peerAddress, "account:" + username}
      ensures |old(rates)| < 4095 ==> {"ip:" + peerAddress, "account:" + username} <= rates.Keys
      ensures forall key | key in rates && key in {"ip:" + peerAddress, "account:" + username} ::
                rates[key] == if key in Running(old(rates), now) && old(rates)[key].startedAt != 0
                              then Rate(old(rates)[key].failures + 1, old(rates)[key].startedAt) else Rate(1, now)
    {
      KeysDiffer(peerAddress, username, peerAddress);
      Increment(now, "ip:" + peerAddress);
      Increment(now, "account:" + username);
    }
  }

  /** One authentication attempt: consulted at `asked`, and if it fails recorded at `told`. */
  datatype Attempt = Attempt(asked: int, told: int, address: string, user: string, correct: bool)

  predicate Succeeds(t: Table, a: Attempt) {
    Allowed(t, a.asked, a.address, a.user) && a.correct
  }

  function Attempted(t: Table, a: Attempt): Table {
    var c := Consulted(t, a.asked);
    if Succeeds(t, a) then c else Recorded(c, a.told, a.address, a.user)
  }

  function TableAfter(attempts: seq<Attempt>): Table {
    if attempts == [] then map[] else Attempted(TableAfter(attempts[..|attempts| - 1]), attempts[|attempts| - 1])
  }

  predicate Names(a: Attempt, key: string) {
    key == "ip:" + a.address || key == "account:" + a.user
  }

  /** The failures a key was allowed and charged with. */
  function Charged(attempts: seq<Attempt>, key: string): History {
    if attempts == [] then Beginning
    else
      var init, a := attempts[..|attempts| - 1], attempts[|attempts| - 1];
      var before, after := TableAfter(init), TableAfter(attempts);
      if Allowed(before, a.asked, a.address, a.user) && !a.correct && Names(a, key) && key in after
      then After(Charged(init, key), Grant(a.told, after[key].startedAt, 1))
      else Charged(init, key)
  }

  /** Attempts one at a time on a clock that has left zero and never runs backwards. */
  predicate OneAtATime(attempts: seq<Attempt>) {
    && (forall i | 0 <= i < |attempts| :: 0 < attempts[i].asked <= attempts[i].told)
    && (forall i, j | 0 <= i < j < |attempts| :: attempts[i].told <= attempts[j].asked)
  }

  predicate TableOk(t: Table, now: int) {
    |t| <= MAX_ENTRIES && forall k <- t :: 0 < t[k].startedAt <= now
  }

  /** The watched entry accounts for every grant of its window, and an absent entry means
      that the last window is over. */
  predicate Accounted(t: Table, key: string, grants: History, now: int) {
    && Tumbling(grants, MAX_FAILURES)
    && (grants.After? ==> grants.last.at <= now)
    && (key in t ==>
          && MayFollow(grants, t[key].startedAt)
          && WindowSum(grants, t[key].startedAt) <= t[key].failures)
    && (key !in t && grants.After? ==> now >= grants.last.start + MINUTE)
  }

  lemma ConsultKeeps(t: Table, key: string, grants: History, now: int, asked: int)
    requires TableOk(t, now) && Accounted(t, key, grants, now) && now <= asked
    ensures TableOk(Consulted(t, asked), asked) && Accounted(Consulted(t, asked), key, grants, asked)
  {
    PurgedIsSmaller(t, asked);
  }

  lemma BumpKeepsTable(t: Table, before: int, now: int, key: string)
    requires TableOk(t, before) && before <= now && 0 < now
    ensures TableOk(Bumped(t, now, key), now)
  {
    if key in t {
      assert t[key := Rate(0, 0)].Keys == t.Keys;
    }
  }

  lemma BumpElsewhere(t: Table, now: int, other: string, key: string, grants: History, before: int)
    requires Accounted(t, key, grants, before) && before <= now && other != key
    ensures Accounted(Bumped(t, now, other), key, grants, now)
  {}

  lemma BumpWithoutGrant(t: Table, before: int, now: int, key: string, grants: History)
    requires TableOk(t, before) && Accounted(t, key, grants, before) && before <= now
    ensures Accounted(Bumped(t, now, key), key, grants, now)
  {
    if grants.After? && grants.last.start < now {
      NothingAhead(grants, MAX_FAILURES, now);
    }
  }

  lemma BumpWithGrant(t: Table, before: int, now: int, key: string, grants: History)
    requires TableOk(t, before) && Accounted(t, key, grants, before) && before <= now
    requires (key in t || |t| < MAX_ENTRIES) && BelowLimit(t, key, before)
    ensures key in Bumped(t, now, key)
    ensures Accounted(Bumped(t, now, key), key, After(grants, Grant(now, Bumped(t, now, key)[key].startedAt, 1)), now)
  {
    var start := Bumped(t, now, key)[key].startedAt;
    if grants.After? && grants.last.start < now {
      NothingAhead(grants, MAX_FAILURES, now);
    }
    assert WindowSum(grants, start) < MAX_FAILURES;
    var h := After(grants, Grant(now, start, 1));
    assert WindowSum(h, start) == WindowSum(grants, start) + 1;
    assert Tumbling(h, MAX_FAILURES);
  }

  lemma KeysDiffer(address: string, user: string, other: string)
    ensures "ip:" + address != "account:" + user
    ensures "ip:" + address == "ip:" + other ==> address == other
  {
    assert ("ip:" + address)[0] == 'i' && ("account:" + user)[0] == 'a';
    assert ("ip:" + address)[3..] == address && ("ip:" + other)[3..] == other;
  }

  predicate Sound(t: Table, key: string, grants: History, now: int) {
    TableOk(t, now) && Accounted(t, key, grants, now)
  }

  /** A failure charged to one of the two keys it names, or to a key it does not name. */
  lemma BumpSound(t: Table, before: int, now: int, other: string, key: string, grants: History)
    requires Sound(t, key, grants, before) && before <= now && 0 < now
    ensures other != key ==> Sound(Bumped(t, now, other), key, grants, now)
    ensures other == key ==> Sound(Bumped(t, now, other), key, grants, now)
    ensures other == key && key in Bumped(t, now, key) && BelowLimit(t, key, before) ==>
              Sound(Bumped(t, now, key), key, After(grants, Grant(now, Bumped(t, now, key)[key].startedAt, 1)), now)
  {
    BumpKeepsTable(t, before, now, other);
    if other != key {
      BumpElsewhere(t, now, other, key, grants, before);
    } else {
      BumpWithoutGrant(t, before, now, key, grants);
      if key in Bumped(t, now, key) && BelowLimit(t, key, before) {
        BumpWithGrant(t, before, now, key, grants);
      }
    }
  }

  lemma BelowElsewhere(t: Table, now: int, other: string, key: string, before: int)
    requires other != key && before <= now && BelowLimit(t, key, before)
    ensures BelowLimit(Bumped(t, now, other), key, now)
    ensures key in Bumped(t, now, other) ==> Bumped(t, now, other)[key] == t[key]
  {}

  lemma StartKept(t: Table, now: int, other: string, key: string)
    requires other != key
    ensures key in Bumped(t, now, other) <==> key in t
    ensures key in t ==> Bumped(t, now, other)[key] == t[key]
  {}

  lemma RecordedSound(c: Table, asked: int, told: int, address: string, user: string, key: string, grants: History)
    requires Sound(c, key, grants, asked) && asked <= told && 0 < told
    ensures Sound(Recorded(c, told, address, user), key, grants, told)
    ensures var t := Recorded(c, told, address, user);
            BelowLimit(c, key, asked) && (key == "ip:" + address || key == "account:" + user) && key in t ==>
              Sound(t, key, After(grants, Grant(told, t[key].startedAt, 1)), told)
  {
    hide Sound, Bumped, BelowLimit;
    var ip, account := "ip:" + address, "account:" + user;
    KeysDiffer(address, user, address);
    var t := Bumped(c, told, ip);
    BumpSound(c, asked, told, ip, key, grants);
    BumpSound(t, told, told, account, key, grants);
    if key == ip {
      StartKept(t, told, account, key);
      if key in t && BelowLimit(c, key, asked) {
        BumpSound(t, told, told, account, key, After(grants, Grant(told, t[key].startedAt, 1)));
      }
    } else if key == account && BelowLimit(c, key, asked) {
      BelowElsewhere(c, told, ip, key, asked);
    }
  }

  lemma AllowedBelow(t: Table, now: int, address: string, user: string, key: string)
    requires Allowed(t, now, address, user) && (key == "ip:" + address || key == "account:" + user)
    ensures BelowLimit(Consulted(t, now), key, now)
  {}

  lemma {:induction false} RunsAreSound(attempts: seq<Attempt>, key: string)
    requires OneAtATime(attempts)
    ensures Sound(TableAfter(attempts), key, Charged(attempts, key),
                  if attempts == [] then 0 else attempts[|attempts| - 1].told)
  {
    if attempts != [] {
      hide Sound, Allowed, Consulted, Recorded, BelowLimit;
      var init, a := attempts[..|attempts| - 1], attempts[|attempts| - 1];
      var t, grants, now := TableAfter(init), Charged(init, key), if init == [] then 0 else init[|init| - 1].told;
      RunsAreSound(init, key);
      var c := Consulted(t, a.asked);
      assert Sound(c, key, grants, a.asked) by { SoundConsulted(t, key, grants, now, a.asked); }
      RecordedSound(c, a.asked, a.told, a.address, a.user, key, grants);
      if Allowed(t, a.asked, a.address, a.user) {
        if Names(a, key) {
          AllowedBelow(t, a.asked, a.address, a.user, key);
        }
        if a.correct {
          SoundLater(c, key, grants, a.asked, a.told);
        }
      }
    }
  }

  lemma SoundConsulted(t: Table, key: string, grants: History, now: int, asked: int)
    requires Sound(t, key, grants, now) && now <= asked
    ensures Sound(Consulted(t, asked), key, grants, asked)
  {
    ConsultKeeps(t, key, grants, now, asked);
  }

  lemma SoundLater(t: Table, key: string, grants: History, now: int, later: int)
    requires Sound(t, key, grants, now) && now <= later
    ensures Sound(t, key, grants, later)
  {}

  /** Over every run: the table stays bounded, and each address and each account is charged
      with at most five allowed failures per window and at most ten in any minute. */
  lemma FailuresBounded(attempts: seq<Attempt>, key: string, from: int)
    requires OneAtATime(attempts)
    ensures |TableAfter(attempts)| <= MAX_ENTRIES
    ensures Tumbling(Charged(attempts, key), MAX_FAILURES)
    ensures MinuteSum(Charged(attempts, key), from) <= 2 * MAX_FAILURES
  {
    RunsAreSound(attempts, key);
    AnyMinuteAtMostTwice(Charged(attempts, key), MAX_FAILURES, from);
  }

  /** An allowed failure is always charged to its address; to its account exactly when the
      account is in the table or there is room for it beside the address. */
  lemma WhenCharged(t: Table, a: Attempt)
    requires Allowed(t, a.asked, a.address, a.user) && !a.correct
    ensures var (c, ip, account) := (Consulted(t, a.asked), "ip:" + a.address, "account:" + a.user);
            && ip in Attempted(t, a)
            && (account in Attempted(t, a) <==> account in c || |c.Keys + {ip}| < MAX_ENTRIES)
  {
    var c, ip, account := Consulted(t, a.asked), "ip:" + a.address, "account:" + a.user;
    KeysDiffer(a.address, a.user, a.address);
    assert Bumped(c, a.told, ip).Keys == c.Keys + {ip};
  }

  /** What becomes of the two keys an attempt names: a success leaves every entry alone; a
      failure, allowed or not, adds one in the running window or begins the next. */
  lemma AttemptRecords(t: Table, a: Attempt, key: string)
    requires Names(a, key) && a.asked <= a.told && key in Attempted(t, a)
    ensures Attempted(t, a)[key]
         == if Succeeds(t, a) then (if key in t then t[key] else Rate(0, 0))
            else if key in Running(t, a.told) && t[key].startedAt != 0
            then Rate(t[key].failures + 1, t[key].startedAt) else Rate(1, a.told)
  {
    KeysDiffer(a.address, a.user, a.address);
    hide Allowed;
  }

  /** With 4095 keys in the table an account can go uncounted: its failure
      from a new address takes the last place for the address. */
  lemma AccountUncounted(t: Table, a: Attempt)
    requires |t| == MAX_ENTRIES - 1 && "ip:" + a.address !in t && "account:" + a.user !in t
    requires !a.correct
    ensures Allowed(t, a.asked, a.address, a.user) && "account:" + a.user !in Attempted(t, a)
  {
    KeysDiffer(a.address, a.user, a.address);
    assert (t.Keys + {"ip:" + a.address}) - {"ip:" + a.address} == t.Keys;
    WhenCharged(t, a);
  }

  /* ------------------------------------------------------------- refusals have a cause */

  /** The attempts that named a key and failed at `since` or later. */
  function FailedSince(attempts: seq<Attempt>, key: string, since: int): nat {
    if attempts == [] then 0
    else
      var init, a := attempts[..|attempts| - 1], attempts[|attempts| - 1];
      FailedSince(init, key, since)
      + if Names(a, key) && a.told >= since && !Succeeds(TableAfter(init), a) then 1 else 0
  }

  lemma {:induction false} FailedEarlier(attempts: seq<Attempt>, key: string, since: int, earlier: int)
    requires earlier <= since
    ensures FailedSince(attempts, key, since) <= FailedSince(attempts, key, earlier)
  {
    if attempts != [] {
      hide Succeeds;
      FailedEarlier(attempts[..|attempts| - 1], key, since, earlier);
    }
  }

  /** One failure more, for a key that is named, and no more for the others. */
  lemma RecordedAtMost(c: Table, now: int, address: string, user: string, key: string)
    ensures var t := Recorded(c, now, address, user);
            key in t ==>
              || (key in c && t[key] == c[key])
              || ((key == "ip:" + address || key == "account:" + user)
                  && (t[key] == Rate(1, now)
                      || (key in c && t[key] == Rate(c[key].failures + 1, c[key].startedAt))))
  {
    KeysDiffer(address, user, address);
  }

  lemma {:induction false} CountedFailures(attempts: seq<Attempt>, key: string)
    requires OneAtATime(attempts)
    ensures key in TableAfter(attempts) ==>
              TableAfter(attempts)[key].failures <= FailedSince(attempts, key, TableAfter(attempts)[key].startedAt)
  {
    if attempts != [] {
      hide Recorded, Succeeds, Sound;
      var init, a := attempts[..|attempts| - 1], attempts[|attempts| - 1];
      CountedFailures(init, key);
      StartsBefore(init, a, key);
      RecordedAtMost(Consulted(TableAfter(init), a.asked), a.told, a.address, a.user, key);
    }
  }

  lemma StartsBefore(init: seq<Attempt>, a: Attempt, key: string)
    requires OneAtATime(init) && (forall i | 0 <= i < |init| :: init[i].told <= a.told) && 0 < a.told
    ensures key in TableAfter(init) ==> TableAfter(init)[key].startedAt <= a.told
  {
    RunsAreSound(init, key);
  }

  /** Over every run: a login with the right credentials is refused only while 4096 keys
      are running, or when its address or its account failed five times in the last
      minute. */
  lemma RefusedForCause(attempts: seq<Attempt>, a: Attempt)
    requires OneAtATime(attempts) && a.correct && !Succeeds(TableAfter(attempts), a)
    ensures || |Running(TableAfter(attempts), a.asked)| >= 4096
            || FailedSince(attempts, "ip:" + a.address, a.asked - MINUTE + 1) >= 5
            || FailedSince(attempts, "account:" + a.user, a.asked - MINUTE + 1) >= 5
  {
    hide Allowed, FailedSince;
    var t := TableAfter(attempts);
    AllowedIff(t, a.asked, a.address, a.user);
    if |Running(t, a.asked)| < 4096 {
      var key :| key in Running(t, a.asked) && key in {"ip:" + a.address, "account:" + a.user} && t[key].failures >= 5;
      CountedFailures(attempts, key);
      FailedEarlier(attempts, key, t[key].startedAt, a.asked - MINUTE + 1);
    }
  }

  function Repeated(t: Table, now: int, address: string, user: string, times: nat): Table {
    if times == 0 then t else Recorded(Repeated(t, now, address, user, times - 1), now, address, user)
  }

  /** The condition that the clock has left zero is needed: at tick zero a window start
      reads as "never started", so failures never add up and no attempt is refused. */
  lemma {:induction false} NoLimitAtTickZero(address: string, user: string, times: nat)
    ensures Allowed(Repeated(map[], 0, address, user, times), 0, address, user)
    ensures times > 0 ==> Repeated(map[], 0, address, user, times)
                          == map["ip:" + address := Rate(1, 0), "account:" + user := Rate(1, 0)]
  {
    KeysDiffer(address, user, address);
    if times > 0 {
      NoLimitAtTickZero(address, user, times - 1);
      var ip, account := "ip:" + address, "account:" + user;
      var both := map[ip := Rate(1, 0), account := Rate(1, 0)];
      assert both.Keys == {ip, account};
      var before := Repeated(map[], 0, address, user, times - 1);
      assert Recorded(before, 0, address, user) == both;
    }
  }
}
