/**
 The login throttle of one API process: fixed attempt windows per source address and per
 account, reservations that hold a place in both until the attempt is finished, and a bound
 on the number of windows. Window objects are told apart by number. Requests read the clock,
 a real number of seconds, before they take the lock, so begins need not come in time order.
 */
module LoginThrottles {
  import opened Basics

  datatype Key = IpKey(ip: int) | AccountKey(account: int)

  type WindowId = nat
  type ReservationId = int

  datatype Window = Window(id: WindowId, startedAt: real, attempts: nat)

  datatype AttemptState = Unfinished | Finished(keptIp: bool, keptAccount: bool)

  datatype Reservation = Reservation(
    ipKey: Key, accountKey: Key, ipWindow: WindowId, accountWindow: WindowId, state: AttemptState)

  datatype Limits = Limits(enabled: bool, window: nat, ip: nat, account: nat, maxEntries: nat)

  datatype Throttle = Throttle(
    entries: map<Key, Window>, reservations: map<ReservationId, Reservation>, nextWindow: WindowId)

  datatype AttemptOutcome = Success | AuthenticationFailed | Aborted

  datatype Decision = NotThrottled | Refused(retryAfter: int) | Reserved

  predicate ValidLimits(l: Limits) { 1 <= l.window && 1 <= l.ip && 1 <= l.account && 2 <= l.maxEntries }

  function LimitOf(k: Key, l: Limits): nat { if k.IpKey? then l.ip else l.account }

  function Ceil(x: real): (c: int)
    ensures c as real >= x && c as real < x + 1.0
  {
    -((-x).Floor)
  }

  function Later(a: real, b: real): real { if a < b then b else a }

  function AtLeastOne(n: int): int { if n < 1 then 1 else n }

  // ----- Windows -----

  predicate Expired(w: Window, now: real, l: Limits) { now - w.startedAt >= l.window as real }

  function RemainingIn(w: Window, now: real, l: Limits): real { l.window as real - (now - w.startedAt) }

  /** Looking a window up removes it when it has expired. */
  function WithoutExpired(entries: map<Key, Window>, k: Key, now: real, l: Limits): map<Key, Window> {
    if k in entries && Expired(entries[k], now, l) then entries - {k} else entries
  }

  function RemoveExpired(entries: map<Key, Window>, now: real, l: Limits): map<Key, Window> {
    map k | k in entries && !Expired(entries[k], now, l) :: entries[k]
  }

  predicate Full(entries: map<Key, Window>, k: Key, l: Limits) {
    k in entries && entries[k].attempts >= LimitOf(k, l)
  }

  /** The longest remaining time of the windows that are at their limit. */
  function LimitRetry(entries: map<Key, Window>, ip: Key, account: Key, now: real, l: Limits): int
    requires Full(entries, ip, l) || Full(entries, account, l)
  {
    var longest :=
      if !Full(entries, account, l) then RemainingIn(entries[ip], now, l)
      else if !Full(entries, ip, l) then RemainingIn(entries[account], now, l)
      else Later(RemainingIn(entries[ip], now, l), RemainingIn(entries[account], now, l));
    AtLeastOne(Ceil(longest))
  }

  function Needed(entries: map<Key, Window>, ip: Key, account: Key): nat {
    (if ip in entries then 0 else 1) + (if account in entries then 0 else 1)
  }

  /** The soonest end of any window, or a whole window when there is none. */
  ghost predicate IsSoonest(entries: map<Key, Window>, now: real, l: Limits, soonest: real) {
    if entries == map[] then soonest == l.window as real
    else
      && (exists k :: k in entries && RemainingIn(entries[k], now, l) == soonest)
      && (forall k :: k in entries ==> soonest <= RemainingIn(entries[k], now, l))
  }

  /** The announced wait until some window ends: whole seconds, at least one. */
  ghost predicate IsCapacityRetry(entries: map<Key, Window>, now: real, l: Limits, retryAfter: int) {
    exists soonest :: IsSoonest(entries, now, l, soonest) && retryAfter == AtLeastOne(Ceil(soonest))
  }

  // ----- The two operations -----

  function Joined(entries: map<Key, Window>, k: Key, id: WindowId, now: real): map<Key, Window> {
    if k in entries then entries[k := entries[k].(attempts := entries[k].attempts + 1)]
    else entries[k := Window(id, now, 1)]
  }

  /** Reserve a place in both windows, opening them where needed. */
  function Reserve(t: Throttle, entries: map<Key, Window>, ip: Key, account: Key, r: ReservationId, now: real): Throttle
    requires ip != account
  {
    var withIp := Joined(entries, ip, t.nextWindow, now);
    var withBoth := Joined(withIp, account, t.nextWindow + 1, now);
    Throttle(
      withBoth,
      t.reservations[r := Reservation(ip, account, withBoth[ip].id, withBoth[account].id, Unfinished)],
      t.nextWindow + 2)
  }

  /** Take both places if there is room, sweeping all expired windows when there is not. */
  ghost predicate TakesPlaces(
    t: Throttle, looked: map<Key, Window>, ip: Key, account: Key, r: ReservationId, now: real, l: Limits,
    next: Throttle, d: Decision)
    requires ip != account
  {
    if |looked| + Needed(looked, ip, account) <= l.maxEntries then
      d == Reserved && next == Reserve(t, looked, ip, account, r, now)
    else
      var swept := RemoveExpired(looked, now, l);
      if |swept| + Needed(swept, ip, account) <= l.maxEntries then
        d == Reserved && next == Reserve(t, swept, ip, account, r, now)
      else
        d.Refused? && IsCapacityRetry(swept, now, l, d.retryAfter) && next == t.(entries := swept)
  }

  /** Refuse when a window is at its limit, or else try to take places. */
  ghost predicate Admits(
    t: Throttle, ip: Key, account: Key, r: ReservationId, now: real, l: Limits, next: Throttle, d: Decision)
    requires ip != account
  {
    var looked := WithoutExpired(WithoutExpired(t.entries, ip, now, l), account, now, l);
    if Full(looked, ip, l) || Full(looked, account, l) then
      d == Refused(LimitRetry(looked, ip, account, now, l)) && next == t.(entries := looked)
    else TakesPlaces(t, looked, ip, account, r, now, l, next, d)
  }

  /** A disabled throttle neither refuses nor reserves. */
  ghost predicate Begins(
    t: Throttle, ip: Key, account: Key, r: ReservationId, now: real, l: Limits, next: Throttle, d: Decision)
    requires ip != account
  {
    if l.enabled then Admits(t, ip, account, r, now, l, next, d) else d == NotThrottled && next == t
  }

  function KeepsIp(o: AttemptOutcome): bool { o == Success || o == AuthenticationFailed }

  function KeepsAccount(o: AttemptOutcome): bool { o == AuthenticationFailed }

  /** Give a place back, unless the window has been replaced since; an empty window goes away. */
  function Released(entries: map<Key, Window>, k: Key, id: WindowId): map<Key, Window> {
    if k !in entries || entries[k].id != id then entries
    else if entries[k].attempts <= 1 then entries - {k}
    else entries[k := entries[k].(attempts := entries[k].attempts - 1)]
  }

  function Finish(t: Throttle, r: ReservationId, o: AttemptOutcome): Throttle {
    if r !in t.reservations || t.reservations[r].state.Finished? then t
    else
      var v := t.reservations[r];
      var afterIp := if KeepsIp(o) then t.entries else Released(t.entries, v.ipKey, v.ipWindow);
      var afterAccount := if KeepsAccount(o) then afterIp else Released(afterIp, v.accountKey, v.accountWindow);
      t.(entries := afterAccount, reservations := t.reservations[r := v.(state := Finished(KeepsIp(o),
          KeepsAccount(o)))])
  }

  // ----- The invariant -----

  /** A reservation counts in a window while it is unfinished, and afterwards if it was retained there. */
  predicate CountsIn(v: Reservation, id: WindowId) {
    (v.ipWindow == id && (v.state.Unfinished? || v.state.keptIp))
    || (v.accountWindow == id && (v.state.Unfinished? || v.state.keptAccount))
  }

  function Holders(reservations: map<ReservationId, Reservation>, id: WindowId): set<ReservationId> {
    set r | r in reservations && CountsIn(reservations[r], id)
  }

  ghost predicate EntryOk(t: Throttle, k: Key, l: Limits)
    requires k in t.entries
  {
    var w := t.entries[k];
    w.id < t.nextWindow && 1 <= w.attempts <= LimitOf(k, l) && w.attempts == |Holders(t.reservations, w.id)|
  }

  ghost predicate ReservationOk(t: Throttle, r: ReservationId)
    requires r in t.reservations
  {
    var v := t.reservations[r];
    v.ipWindow < t.nextWindow && v.accountWindow < t.nextWindow && v.ipWindow != v.accountWindow
        && v.ipKey != v.accountKey
  }

  /** A window number belongs to one key. */
  ghost predicate Belongs(t: Throttle, k: Key, r: ReservationId)
    requires k in t.entries && r in t.reservations
  {
    && (t.entries[k].id == t.reservations[r].ipWindow ==> k == t.reservations[r].ipKey)
    && (t.entries[k].id == t.reservations[r].accountWindow ==> k == t.reservations[r].accountKey)
  }

  ghost predicate ThrottleOk(t: Throttle, l: Limits) {
    && |t.entries| <= l.maxEntries
    && (forall k {:trigger EntryOk(t, k, l)} :: k in t.entries ==> EntryOk(t, k, l))
    && (forall j, k {:trigger t.entries[j], t.entries[k]} :: j in t.entries && k in t.entries && j != k ==>
         t.entries[j].id != t.entries[k].id)
    && (forall r {:trigger ReservationOk(t, r)} :: r in t.reservations ==> ReservationOk(t, r))
    && (forall k, r {:trigger Belongs(t, k, r)} :: k in t.entries && r in t.reservations ==> Belongs(t, k, r))
  }

  lemma MapSize<K(!new), V>(m: map<K, V>)
    ensures |m| == |m.Keys|
  {
  }

  ghost predicate Fewer(entries: map<Key, Window>, next: map<Key, Window>) {
    next.Keys <= entries.Keys && forall k :: k in next ==> next[k] == entries[k]
  }

  /** Removing windows breaks nothing. */
  lemma FewerKeeps(t: Throttle, entries: map<Key, Window>, l: Limits)
    requires ThrottleOk(t, l) && Fewer(t.entries, entries)
    ensures ThrottleOk(t.(entries := entries), l) && |entries| <= |t.entries|
  {
    var next := t.(entries := entries);
    MapSize(entries);
    MapSize(t.entries);
    SubsetSize(entries.Keys, t.entries.Keys);
    forall k | k in next.entries
      ensures EntryOk(next, k, l)
    {
      assert EntryOk(t, k, l);
    }
    forall r | r in next.reservations
      ensures ReservationOk(next, r)
    {
      assert ReservationOk(t, r);
    }
    forall k, r | k in next.entries && r in next.reservations
      ensures Belongs(next, k, r)
    {
      assert Belongs(t, k, r);
    }
  }

  lemma LookingIsFewer(entries: map<Key, Window>, ip: Key, account: Key, now: real, l: Limits)
    ensures
      var looked := WithoutExpired(WithoutExpired(entries, ip, now, l), account, now, l);
      Fewer(entries, looked) && Fewer(entries, RemoveExpired(looked, now, l))
  {
  }

  // ----- Reserving -----

  ghost predicate WindowsBelow(reservations: map<ReservationId, Reservation>, n: WindowId) {
    forall r {:trigger reservations[r]} :: r in reservations ==>
        reservations[r].ipWindow < n && reservations[r].accountWindow < n
  }

  lemma NewWindowIsEmpty(reservations: map<ReservationId, Reservation>, n: WindowId)
    requires WindowsBelow(reservations, n)
    ensures Holders(reservations, n) == {} && Holders(reservations, n + 1) == {}
  {
    forall r
      ensures r !in Holders(reservations, n) && r !in Holders(reservations, n + 1)
    {
      assert r in reservations ==> reservations[r].ipWindow < n && reservations[r].accountWindow < n;
    }
    SetsEqual(Holders(reservations, n), {});
    SetsEqual(Holders(reservations, n + 1), {});
  }

  lemma HoldersWithNew(reservations: map<ReservationId, Reservation>, r: ReservationId, v: Reservation, id: WindowId)
    requires r !in reservations && v.state.Unfinished?
    ensures Holders(reservations[r := v], id) ==
            if v.ipWindow == id || v.accountWindow == id then Holders(reservations, id) + {r}
                else Holders(reservations, id)
  {
    var next := reservations[r := v];
    forall q
      ensures q in Holders(next, id) <==>
              q in Holders(reservations, id) || (q == r && (v.ipWindow == id || v.accountWindow == id))
    {
      assert q in next <==> q in reservations || q == r;
    }
  }

  lemma JoinedSize(entries: map<Key, Window>, k: Key, id: WindowId, now: real)
    ensures |Joined(entries, k, id, now)| == |entries| + if k in entries then 0 else 1
  {
    MapSize(entries);
    MapSize(Joined(entries, k, id, now));
    assert Joined(entries, k, id, now).Keys == entries.Keys + {k};
  }

  lemma AllBelow(t: Throttle, l: Limits)
    requires ThrottleOk(t, l)
    ensures WindowsBelow(t.reservations, t.nextWindow)
  {
    forall q | q in t.reservations
      ensures t.reservations[q].ipWindow < t.nextWindow && t.reservations[q].accountWindow < t.nextWindow
    {
      assert ReservationOk(t, q);
    }
  }

  /** The new reservation is one more holder of the two windows it joins, and of no other. */
  lemma ReserveCounts(t: Throttle, ip: Key, account: Key, r: ReservationId, now: real, l: Limits, k: Key)
    requires ThrottleOk(t, l) && ip != account && r !in t.reservations
    requires k in Reserve(t, t.entries, ip, account, r, now).entries
    ensures
      var next := Reserve(t, t.entries, ip, account, r, now);
      var id := next.entries[k].id;
      |Holders(next.reservations, id)| ==
      (if k in t.entries then |Holders(t.reservations, id)| else 0) + if k == ip || k == account then 1 else 0
  {
    var next := Reserve(t, t.entries, ip, account, r, now);
    var id := next.entries[k].id;
    HoldersCount(t.reservations, r, next.reservations[r], id);
    JoinsTwo(t, ip, account, r, now, l, k);
    if k !in t.entries {
      AllBelow(t, l);
      NewWindowIsEmpty(t.reservations, t.nextWindow);
    }
  }

  lemma HoldersCount(reservations: map<ReservationId, Reservation>, r: ReservationId, v: Reservation, id: WindowId)
    requires r !in reservations && v.state.Unfinished?
    ensures |Holders(reservations[r := v], id)| ==
            |Holders(reservations, id)| + if v.ipWindow == id || v.accountWindow == id then 1 else 0
  {
    HoldersWithNew(reservations, r, v, id);
    assert r !in Holders(reservations, id);
  }

  lemma JoinsTwo(t: Throttle, ip: Key, account: Key, r: ReservationId, now: real, l: Limits, k: Key)
    requires ThrottleOk(t, l) && ip != account && r !in t.reservations
    requires k in Reserve(t, t.entries, ip, account, r, now).entries
    ensures
      var next := Reserve(t, t.entries, ip, account, r, now);
      var v := next.reservations[r];
      && (v.ipWindow == next.entries[k].id || v.accountWindow == next.entries[k].id <==> k == ip || k == account)
      && (k in t.entries || next.entries[k].id == t.nextWindow || next.entries[k].id == t.nextWindow + 1)
  {
    ReserveIds(t, ip, account, r, now, l);
    var next := Reserve(t, t.entries, ip, account, r, now);
    assert next.reservations[r].ipWindow == next.entries[ip].id
        && next.reservations[r].accountWindow == next.entries[account].id;
  }

  lemma ReserveEntry(t: Throttle, ip: Key, account: Key, r: ReservationId, now: real, l: Limits, k: Key)
    requires ValidLimits(l) && ThrottleOk(t, l) && ip != account && r !in t.reservations
    requires !Full(t.entries, ip, l) && !Full(t.entries, account, l)
    requires k in Reserve(t, t.entries, ip, account, r, now).entries
    ensures EntryOk(Reserve(t, t.entries, ip, account, r, now), k, l)
  {
    ReserveCounts(t, ip, account, r, now, l, k);
    if k in t.entries {
      assert EntryOk(t, k, l);
    }
  }

  lemma ReserveKeeps(t: Throttle, ip: Key, account: Key, r: ReservationId, now: real, l: Limits)
    requires ValidLimits(l) && ThrottleOk(t, l) && ip != account && r !in t.reservations
    requires !Full(t.entries, ip, l) && !Full(t.entries, account, l)
    requires |t.entries| + Needed(t.entries, ip, account) <= l.maxEntries
    ensures ThrottleOk(Reserve(t, t.entries, ip, account, r, now), l)
  {
    var next := Reserve(t, t.entries, ip, account, r, now);
    JoinedSize(t.entries, ip, t.nextWindow, now);
    JoinedSize(Joined(t.entries, ip, t.nextWindow, now), account, t.nextWindow + 1, now);
    forall k | k in next.entries
      ensures EntryOk(next, k, l)
    {
      ReserveEntry(t, ip, account, r, now, l, k);
    }
    ReserveIds(t, ip, account, r, now, l);
    forall q | q in next.reservations
      ensures ReservationOk(next, q)
    {
      assert q != r ==> ReservationOk(t, q);
    }
  }

  lemma ReserveIds(t: Throttle, ip: Key, account: Key, r: ReservationId, now: real, l: Limits)
    requires ThrottleOk(t, l) && ip != account && r !in t.reservations
    ensures
      var next := Reserve(t, t.entries, ip, account, r, now);
      && (forall j, k {:trigger next.entries[j], next.entries[k]} ::
            j in next.entries && k in next.entries && j != k ==> next.entries[j].id != next.entries[k].id)
      && (forall k, q {:trigger Belongs(next, k, q)} :: k in next.entries && q in next.reservations ==>
           Belongs(next, k, q))
      && next.reservations[r].ipWindow != next.reservations[r].accountWindow
      && next.reservations[r].ipWindow < next.nextWindow && next.reservations[r].accountWindow < next.nextWindow
  {
    var next := Reserve(t, t.entries, ip, account, r, now);
    forall k | k in next.entries
      ensures k in t.entries ==> next.entries[k].id == t.entries[k].id && t.entries[k].id < t.nextWindow
      ensures k !in t.entries ==>
                (k == ip && next.entries[k].id == t.nextWindow)
                || (k == account && next.entries[k].id == t.nextWindow + 1)
    {
      assert k in t.entries ==> EntryOk(t, k, l);
    }
    forall k, q | k in next.entries && q in next.reservations
      ensures Belongs(next, k, q)
    {
      if q != r {
        assert ReservationOk(t, q);
        assert k in t.entries ==> Belongs(t, k, q);
      }
    }
  }

  /** A begin removes expired windows, and then reserves in what is left or reserves nothing. */
  ghost predicate BeginsFrom(
    t: Throttle, entries: map<Key, Window>, ip: Key, account: Key, r: ReservationId, now: real, l: Limits,
    next: Throttle)
    requires ip != account
  {
    && Fewer(t.entries, entries)
    && (next == t.(entries := entries)
        || (!Full(entries, ip, l) && !Full(entries, account, l)
             && |entries| + Needed(entries, ip, account) <= l.maxEntries
            && next == Reserve(t, entries, ip, account, r, now)))
  }

  lemma BeginShape(
    t: Throttle, ip: Key, account: Key, r: ReservationId, now: real, l: Limits, next: Throttle, d: Decision)
    returns (entries: map<Key, Window>)
    requires ip != account && Begins(t, ip, account, r, now, l, next, d)
    ensures BeginsFrom(t, entries, ip, account, r, now, l, next)
  {
    var looked := WithoutExpired(WithoutExpired(t.entries, ip, now, l), account, now, l);
    var swept := RemoveExpired(looked, now, l);
    LookingIsFewer(t.entries, ip, account, now, l);
    var limited := Full(looked, ip, l) || Full(looked, account, l);
    if !l.enabled {
      return t.entries;
    }
    if !limited {
      SweptNotFull(looked, ip, account, now, l);
    }
    entries := if limited || |looked| + Needed(looked, ip, account) <= l.maxEntries then looked else swept;
  }

  lemma FromKeeps(
    t: Throttle, entries: map<Key, Window>, ip: Key, account: Key, r: ReservationId, now: real, l: Limits,
    next: Throttle)
    requires ValidLimits(l) && ThrottleOk(t, l) && ip != account && r !in t.reservations
    requires BeginsFrom(t, entries, ip, account, r, now, l, next)
    ensures ThrottleOk(next, l)
  {
    FewerKeeps(t, entries, l);
    var fewer := t.(entries := entries);
    ReserveInFewer(t, entries, ip, account, r, now);
    if next != fewer {
      ReserveKeeps(fewer, ip, account, r, now, l);
    }
  }

  lemma ReserveInFewer(
    t: Throttle, entries: map<Key, Window>, ip: Key, account: Key, r: ReservationId, now: real)
    requires ip != account
    ensures Reserve(t, entries, ip, account, r, now) == Reserve(t.(entries := entries), entries, ip, account, r, now)
  {
  }

  lemma BeginKeeps(
    t: Throttle, ip: Key, account: Key, r: ReservationId, now: real, l: Limits, next: Throttle, d: Decision)
    requires ValidLimits(l) && ThrottleOk(t, l) && ip != account && r !in t.reservations
    requires Begins(t, ip, account, r, now, l, next, d)
    ensures ThrottleOk(next, l)
  {
    var entries := BeginShape(t, ip, account, r, now, l, next, d);
    FromKeeps(t, entries, ip, account, r, now, l, next);
  }

  // ----- Finishing -----

  lemma HoldersWithout(
    reservations: map<ReservationId, Reservation>, r: ReservationId, state: AttemptState, id: WindowId)
    requires r in reservations && reservations[r].state.Unfinished?
            && reservations[r].ipWindow != reservations[r].accountWindow
    ensures
      var v := reservations[r];
      var keeps := (v.ipWindow == id && state.Finished? && state.keptIp)
          || (v.accountWindow == id && state.Finished? && state.keptAccount);
      state.Finished? ==>
        Holders(reservations[r := v.(state := state)], id) == if keeps then Holders(reservations, id)
            else Holders(reservations, id) - {r}
  {
    var next := reservations[r := reservations[r].(state := state)];
    forall q
      ensures q in next <==> q in reservations
      ensures q in Holders(next, id) <==> q in next && CountsIn(next[q], id)
    {
    }
  }

  /** The reservation gives its place in this window back. */
  ghost predicate GivesBack(v: Reservation, o: AttemptOutcome, id: WindowId) {
    (v.ipWindow == id && !KeepsIp(o)) || (v.accountWindow == id && !KeepsAccount(o))
  }

  lemma FinishedWindow(t: Throttle, r: ReservationId, o: AttemptOutcome, k: Key)
    requires r in t.reservations && t.reservations[r].state.Unfinished? && k in Finish(t, r, o).entries
    requires k in t.entries ==> Belongs(t, k, r)
    requires t.reservations[r].ipKey != t.reservations[r].accountKey
    ensures k in t.entries
    ensures
      var before, after := t.entries[k], Finish(t, r, o).entries[k];
      if GivesBack(t.reservations[r], o, before.id) then 1 < before.attempts
          && after == before.(attempts := before.attempts - 1)
      else after == before
  {
  }

  lemma FinishEntry(t: Throttle, r: ReservationId, o: AttemptOutcome, l: Limits, k: Key)
    requires ThrottleOk(t, l) && r in t.reservations && t.reservations[r].state.Unfinished?
    requires k in Finish(t, r, o).entries
    ensures EntryOk(Finish(t, r, o), k, l)
    ensures k in t.entries && Finish(t, r, o).entries[k].id == t.entries[k].id
  {
    var v := t.reservations[r];
    assert ReservationOk(t, r);
    assert k in t.entries ==> Belongs(t, k, r) && EntryOk(t, k, l);
    FinishedWindow(t, r, o, k);
    var id := t.entries[k].id;
    HoldersWithout(t.reservations, r, Finished(KeepsIp(o), KeepsAccount(o)), id);
    if v.ipWindow == id || v.accountWindow == id {
      assert r in Holders(t.reservations, id);
    }
  }

  lemma FinishKeeps(t: Throttle, r: ReservationId, o: AttemptOutcome, l: Limits)
    requires ThrottleOk(t, l)
    ensures ThrottleOk(Finish(t, r, o), l)
  {
    var next := Finish(t, r, o);
    if next != t {
      forall k | k in next.entries
        ensures EntryOk(next, k, l) && k in t.entries && next.entries[k].id == t.entries[k].id
      {
        FinishEntry(t, r, o, l, k);
      }
      MapSize(next.entries);
      MapSize(t.entries);
      SubsetSize(next.entries.Keys, t.entries.Keys);
      forall q | q in next.reservations
        ensures ReservationOk(next, q)
      {
        assert ReservationOk(t, q);
      }
      forall k, q | k in next.entries && q in next.reservations
        ensures Belongs(next, k, q)
      {
        assert Belongs(t, k, q);
      }
    }
  }

  // ----- Who is admitted, and what a finished attempt gives back -----

  /** The window of a key, while it runs. */
  predicate Runs(t: Throttle, k: Key, now: real, l: Limits) {
    k in t.entries && now < t.entries[k].startedAt + l.window as real
  }

  function Running(t: Throttle, now: real, l: Limits): set<Key> {
    set k | k in t.entries && Runs(t, k, now, l)
  }

  /** The address has used up its attempts, or the account has. */
  predicate UsedUp(t: Throttle, ip: int, account: int, now: real, l: Limits) {
    || (Runs(t, IpKey(ip), now, l) && l.ip <= t.entries[IpKey(ip)].attempts)
    || (Runs(t, AccountKey(account), now, l) && l.account <= t.entries[AccountKey(account)].attempts)
  }

  /** The running windows and those of this attempt are not too many. */
  predicate HasRoom(t: Throttle, ip: int, account: int, now: real, l: Limits) {
    |Running(t, now, l) + {IpKey(ip), AccountKey(account)}| <= l.maxEntries
  }

  /** Only expired windows are missing. */
  ghost predicate Pruned(t: Throttle, entries: map<Key, Window>, now: real, l: Limits) {
    && Fewer(t.entries, entries)
    && forall k :: Runs(t, k, now, l) ==> k in entries
  }

  ghost predicate KeepsOnlyRunning(t: Throttle, entries: map<Key, Window>, k: Key, now: real, l: Limits) {
    k in entries ==> Runs(t, k, now, l)
  }

  lemma LookedPrunes(t: Throttle, ip: Key, account: Key, now: real, l: Limits)
    ensures
      var looked := WithoutExpired(WithoutExpired(t.entries, ip, now, l), account, now, l);
      var swept := RemoveExpired(looked, now, l);
      && Pruned(t, looked, now, l) && Pruned(t, swept, now, l)
      && KeepsOnlyRunning(t, looked, ip, now, l) && KeepsOnlyRunning(t, looked, account, now, l)
      && swept.Keys == Running(t, now, l)
  {
  }

  lemma OneMoreKey(keys: set<Key>, k: Key)
    ensures |keys + {k}| == |keys| + if k in keys then 0 else 1
  {
    if k in keys {
      assert keys + {k} == keys;
    }
  }

  lemma RoomNeeded(entries: map<Key, Window>, ip: Key, account: Key)
    requires ip != account
    ensures |entries| + Needed(entries, ip, account) == |entries.Keys + {ip, account}|
  {
    MapSize(entries);
    OneMoreKey(entries.Keys, ip);
    OneMoreKey(entries.Keys + {ip}, account);
    assert entries.Keys + {ip} + {account} == entries.Keys + {ip, account};
  }

  lemma RoomOfFewer(t: Throttle, entries: map<Key, Window>, ip: Key, account: Key, now: real, l: Limits)
    requires Pruned(t, entries, now, l) && ip != account
    ensures |Running(t, now, l) + {ip, account}| <= |entries| + Needed(entries, ip, account)
  {
    RoomNeeded(entries, ip, account);
    SubsetSize(Running(t, now, l) + {ip, account}, entries.Keys + {ip, account});
  }

  /** What a begin makes of the windows before it reserves, if it does. */
  ghost predicate BegunFrom(
    t: Throttle, entries: map<Key, Window>, ip: Key, account: Key, r: ReservationId, now: real, l: Limits,
    next: Throttle, reserved: bool)
    requires ip != account
  {
    && Pruned(t, entries, now, l)
    && (if reserved then
          && KeepsOnlyRunning(t, entries, ip, now, l) && KeepsOnlyRunning(t, entries, account, now, l)
          && next == Reserve(t, entries, ip, account, r, now)
        else next == t.(entries := entries))
  }

  lemma TakingFrom(
    t: Throttle, looked: map<Key, Window>, ip: Key, account: Key, r: ReservationId, now: real, l: Limits,
    next: Throttle, d: Decision)
    returns (entries: map<Key, Window>)
    requires ip != account && TakesPlaces(t, looked, ip, account, r, now, l, next, d)
    requires Pruned(t, looked, now, l) && Pruned(t, RemoveExpired(looked, now, l), now, l)
    requires KeepsOnlyRunning(t, looked, ip, now, l) && KeepsOnlyRunning(t, looked, account, now, l)
    requires RemoveExpired(looked, now, l).Keys == Running(t, now, l)
    ensures BegunFrom(t, entries, ip, account, r, now, l, next, d == Reserved)
    ensures d == Reserved <==> |Running(t, now, l) + {ip, account}| <= l.maxEntries
  {
    entries := if |looked| + Needed(looked, ip, account) <= l.maxEntries then looked else RemoveExpired(looked, now, l);
    RoomOfFewer(t, looked, ip, account, now, l);
    RoomNeeded(RemoveExpired(looked, now, l), ip, account);
  }

  lemma Begun(
    t: Throttle, ip: int, account: int, r: ReservationId, now: real, l: Limits, next: Throttle, d: Decision)
    returns (entries: map<Key, Window>)
    requires Begins(t, IpKey(ip), AccountKey(account), r, now, l, next, d)
    ensures BegunFrom(t, entries, IpKey(ip), AccountKey(account), r, now, l, next, d == Reserved)
    ensures d == NotThrottled <==> !l.enabled
    ensures d == Reserved <==> l.enabled && !UsedUp(t, ip, account, now, l) && HasRoom(t, ip, account, now, l)
  {
    var a, b := IpKey(ip), AccountKey(account);
    LookedPrunes(t, a, b, now, l);
    var looked := WithoutExpired(WithoutExpired(t.entries, a, now, l), b, now, l);
    entries := if l.enabled then looked else t.entries;
    if l.enabled {
      assert Full(looked, a, l) || Full(looked, b, l) <==> UsedUp(t, ip, account, now, l);
      if !UsedUp(t, ip, account, now, l) {
        entries := TakingFrom(t, looked, a, b, r, now, l, next, d);
      }
    }
  }

  /** An attempt is admitted exactly when neither limit is reached and the windows that run leave room. */
  lemma BeginOutcome(
    t: Throttle, ip: int, account: int, r: ReservationId, now: real, l: Limits, next: Throttle, d: Decision)
    requires Begins(t, IpKey(ip), AccountKey(account), r, now, l, next, d)
    ensures d == NotThrottled <==> !l.enabled
    ensures d == Reserved <==> l.enabled && !UsedUp(t, ip, account, now, l) && HasRoom(t, ip, account, now, l)
  {
    var entries := Begun(t, ip, account, r, now, l, next, d);
  }

  /** One attempt more in the window of the key; a window that did not run is opened anew. */
  ghost predicate JoinedIn(t: Throttle, next: Throttle, k: Key, now: real, l: Limits) {
    && k in next.entries
    && (if Runs(t, k, now, l) then next.entries[k] == t.entries[k].(attempts := t.entries[k].attempts + 1)
        else next.entries[k].startedAt == now && next.entries[k].attempts == 1 && t.nextWindow <= next.entries[k].id)
  }

  /** An admitted attempt holds a place in both windows; every other running window stays as it is. */
  lemma BeginEffect(
    t: Throttle, ip: int, account: int, r: ReservationId, now: real, l: Limits, next: Throttle, d: Decision, k: Key)
    requires Begins(t, IpKey(ip), AccountKey(account), r, now, l, next, d)
    ensures
      if d == Reserved && (k == IpKey(ip) || k == AccountKey(account)) then JoinedIn(t, next, k, now, l)
      else
        && (Runs(t, k, now, l) ==> k in next.entries)
        && (k in next.entries ==> k in t.entries && next.entries[k] == t.entries[k])
    ensures
      if d == Reserved then
        && IpKey(ip) in next.entries && AccountKey(account) in next.entries
        && next.reservations == t.reservations[r := Reservation(
             IpKey(ip), AccountKey(account), next.entries[IpKey(ip)].id, next.entries[AccountKey(account)].id,
             Unfinished)]
      else next.reservations == t.reservations
  {
    var entries := Begun(t, ip, account, r, now, l, next, d);
  }

  /** How many attempts a window still counts, if it has not been replaced. */
  function Counted(t: Throttle, k: Key, id: WindowId): nat {
    if k in t.entries && t.entries[k].id == id then t.entries[k].attempts else 0
  }

  /**
   The address gets its place back from an aborted attempt only; the account also from a
   successful one. A wrong password costs both.
   */
  lemma FinishGivesBack(t: Throttle, r: ReservationId, o: AttemptOutcome, l: Limits)
    requires ThrottleOk(t, l) && r in t.reservations && t.reservations[r].state.Unfinished?
    ensures
      var v, next := t.reservations[r], Finish(t, r, o);
      var byIp, byAccount := Counted(t, v.ipKey, v.ipWindow), Counted(t, v.accountKey, v.accountWindow);
      && Counted(next, v.ipKey, v.ipWindow) == (if o == Aborted && byIp > 0 then byIp - 1 else byIp)
      && Counted(next, v.accountKey, v.accountWindow) ==
         (if o != AuthenticationFailed && byAccount > 0 then byAccount - 1 else byAccount)
      && next.reservations.Keys == t.reservations.Keys && next.reservations[r].state.Finished?
      && forall q :: q in t.reservations && q != r ==> next.reservations[q] == t.reservations[q]
  {
    var v := t.reservations[r];
    assert ReservationOk(t, r);
    assert v.ipKey in t.entries ==> EntryOk(t, v.ipKey, l);
    assert v.accountKey in t.entries ==> EntryOk(t, v.accountKey, l);
  }

  // ----- Retry-After -----

  /**
   After a refusal, once the announced time has passed, no window that was at its limit then
   is still running; and the announcement is less than a second too long.
   */
  lemma RetryAfterIsSound(
    t: Throttle, ip: Key, account: Key, r: ReservationId, now: real, l: Limits, next: Throttle, d: Decision,
    later: real, k: Key)
    requires ValidLimits(l) && ip != account && Begins(t, ip, account, r, now, l, next, d)
    requires (Full(next.entries, ip, l) || Full(next.entries, account, l)) && d.Refused?
    requires k == ip || k == account
    ensures d.retryAfter >= 1
    ensures Full(next.entries, k, l) && later >= now + d.retryAfter as real ==> Expired(next.entries[k], later, l)
    ensures d.retryAfter > 1 ==> exists j :: (j == ip || j == account) && Full(next.entries, j, l)
                                             && !Expired(next.entries[j], now + (d.retryAfter - 1) as real, l)
  {
    var looked := WithoutExpired(WithoutExpired(t.entries, ip, now, l), account, now, l);
    if !(Full(looked, ip, l) || Full(looked, account, l)) {
      SweptNotFull(looked, ip, account, now, l);
    } else if d.retryAfter > 1 {
      var j :=
        if !Full(looked, account, l) then ip
        else if !Full(looked, ip, l) then account
        else if RemainingIn(looked[ip], now, l) < RemainingIn(looked[account], now, l) then account
        else ip;
      assert !Expired(next.entries[j], now + (d.retryAfter - 1) as real, l);
    }
  }

  /** After a refusal for lack of room, once the announced time has passed, some window has ended. */
  lemma CapacityRetryIsSound(
    t: Throttle, ip: Key, account: Key, r: ReservationId, now: real, l: Limits, next: Throttle, d: Decision,
    later: real)
    requires ValidLimits(l) && ip != account && Begins(t, ip, account, r, now, l, next, d)
    requires d.Refused? && !Full(next.entries, ip, l) && !Full(next.entries, account, l)
    requires later >= now + d.retryAfter as real
    ensures d.retryAfter >= 1 && exists k :: k in next.entries && Expired(next.entries[k], later, l)
    ensures d.retryAfter > 1 ==> forall k :: k in next.entries ==>
              !Expired(next.entries[k], now + (d.retryAfter - 1) as real, l)
  {
    var soonest :| IsSoonest(next.entries, now, l, soonest) && d.retryAfter == AtLeastOne(Ceil(soonest));
    assert |next.entries| + Needed(next.entries, ip, account) > l.maxEntries;
    assert next.entries != map[];
    var k :| k in next.entries && RemainingIn(next.entries[k], now, l) == soonest;
    assert Expired(next.entries[k], later, l);
  }

  lemma SweptNotFull(entries: map<Key, Window>, ip: Key, account: Key, now: real, l: Limits)
    requires !(Full(entries, ip, l) || Full(entries, account, l))
    ensures !(Full(RemoveExpired(entries, now, l), ip, l) || Full(RemoveExpired(entries, now, l), account, l))
  {
  }

  // ----- Runs -----

  datatype ThrottleStep =
    | BeginStep(ip: Key, account: Key, reservation: ReservationId, now: real)
    | FinishStep(finished: ReservationId, outcome: AttemptOutcome)

  /** Reservation objects are new. */
  ghost predicate Steps(t: Throttle, step: ThrottleStep, next: Throttle, l: Limits) {
    match step
    case BeginStep(ip, account, r, now) =>
      && ip.IpKey? && account.AccountKey? && r !in t.reservations
      && exists d :: Begins(t, ip, account, r, now, l, next, d)
    case FinishStep(r, o) => next == Finish(t, r, o)
  }

  lemma StepKeeps(t: Throttle, step: ThrottleStep, next: Throttle, l: Limits)
    requires ValidLimits(l) && ThrottleOk(t, l) && Steps(t, step, next, l)
    ensures ThrottleOk(next, l)
  {
    match step
    case BeginStep(ip, account, r, now) =>
      var d :| Begins(t, ip, account, r, now, l, next, d);
      BeginKeeps(t, ip, account, r, now, l, next, d);
    case FinishStep(r, o) => FinishKeeps(t, r, o, l);
  }

  ghost predicate IsRun(states: seq<Throttle>, steps: seq<ThrottleStep>, l: Limits) {
    && |states| == |steps| + 1
    && forall i {:trigger steps[i]} :: 0 <= i < |steps| ==> Steps(states[i], steps[i], states[i + 1], l)
  }

  const IDLE: Throttle := Throttle(map[], map[], 0)

  /**
   In every interleaving of begin and finish each running window counts exactly its
   unfinished and its retained reservations, stays between one and its limit, and there are
   never more windows than allowed.
   */
  lemma {:induction false} RunKeeps(states: seq<Throttle>, steps: seq<ThrottleStep>, l: Limits, n: nat)
    requires ValidLimits(l) && IsRun(states, steps, l) && states[0] == IDLE && n <= |steps|
    ensures ThrottleOk(states[n], l)
  {
    if n > 0 {
      RunKeeps(states, steps, l, n - 1);
      StepKeeps(states[n - 1], steps[n - 1], states[n], l);
    }
  }

  /** A reservation stays in its two windows, and once it is finished it stays so with its first outcome. */
  ghost predicate Remains(t: Throttle, next: Throttle, r: ReservationId) {
    && r in t.reservations && r in next.reservations
    && next.reservations[r].(state := Unfinished) == t.reservations[r].(state := Unfinished)
    && (t.reservations[r].state.Finished? ==> next.reservations[r] == t.reservations[r])
  }

  lemma StepRemains(t: Throttle, step: ThrottleStep, next: Throttle, l: Limits, r: ReservationId)
    requires Steps(t, step, next, l) && r in t.reservations
    ensures Remains(t, next, r)
  {
    if step.BeginStep? {
      var d :| Begins(t, step.ip, step.account, step.reservation, step.now, l, next, d);
    }
  }

  lemma {:induction false} RunRemains(
    states: seq<Throttle>, steps: seq<ThrottleStep>, l: Limits, i: nat, j: nat, r: ReservationId)
    requires IsRun(states, steps, l) && i <= j <= |steps| && r in states[i].reservations
    ensures Remains(states[i], states[j], r)
    decreases j
  {
    if i < j {
      RunRemains(states, steps, l, i, j - 1, r);
      StepRemains(states[j - 1], steps[j - 1], states[j], l, r);
    }
  }

  /**
   Whatever happens in between: finishing a finished reservation changes nothing, and finishing
   any reservation leaves every window alone that is not one of the two it was reserved in.
   */
  lemma FinishIsSafe(
    states: seq<Throttle>, steps: seq<ThrottleStep>, l: Limits, i: nat, j: nat, r: ReservationId, o: AttemptOutcome)
    requires IsRun(states, steps, l) && i <= j <= |steps| && r in states[i].reservations
    ensures states[i].reservations[r].state.Finished? ==> Finish(states[j], r, o) == states[j]
    ensures
      var reserved := {states[i].reservations[r].ipWindow, states[i].reservations[r].accountWindow};
      forall k :: k in states[j].entries && states[j].entries[k].id !in reserved ==>
        k in Finish(states[j], r, o).entries && Finish(states[j], r, o).entries[k] == states[j].entries[k]
  {
    RunRemains(states, steps, l, i, j, r);
  }

  // ----- The object that one process shares between its requests -----

  class LoginThrottle {
    const limits: Limits
    var entries: map<Key, Window>
    var reservations: map<ReservationId, Reservation>
    var nextWindow: WindowId

    constructor (limits: Limits)
      requires ValidLimits(limits)
      ensures View() == IDLE && this.limits == limits
    {
      this.limits := limits;
      entries, reservations, nextWindow := map[], map[], 0;
    }

    function View(): Throttle
      reads this
    {
      Throttle(entries, reservations, nextWindow)
    }

    /** Look a window up, dropping it when it has expired. */
    method ActiveWindow(k: Key, now: real) returns (found: bool)
      modifies this
      ensures entries == WithoutExpired(old(entries), k, now, limits)
      ensures reservations == old(reservations) && nextWindow == old(nextWindow)
      ensures found <==> k in entries
    {
      if k !in entries {
        return false;
      }
      if now - entries[k].startedAt >= limits.window as real {
        entries := entries - {k};
        return false;
      }
      return true;
    }

    method RemoveExpiredWindows(now: real)
      modifies this
      ensures entries == RemoveExpired(old(entries), now, limits)
      ensures reservations == old(reservations) && nextWindow == old(nextWindow)
    {
      var before := entries;
      var next := entries;
      var done: set<Key> := {};
      while done != before.Keys
        invariant done <= before.Keys
        invariant forall k :: k in next <==> k in before && !(k in done && Expired(before[k], now, limits))
        invariant forall k :: k in next ==> next[k] == before[k]
        decreases before.Keys - done
        modifies {}
      {
        SomeRemain(before.Keys, done);
        var k := Pick(before.Keys - done);
        if now - before[k].startedAt >= limits.window as real {
          next := next - {k};
        }
        done := done + {k};
      }
      MapsEqual(next, RemoveExpired(before, now, limits));
      entries := next;
    }

    method CapacityRetryAfter(now: real) returns (retryAfter: int)
      ensures IsCapacityRetry(entries, now, limits, retryAfter)
    {
      var soonest := limits.window as real;
      var done: set<Key> := {};
      while done != entries.Keys
        invariant done <= entries.Keys
        invariant done == {} ==> soonest == limits.window as real
        invariant done != {} ==> exists k :: k in done && RemainingIn(entries[k], now, limits) == soonest
        invariant forall k :: k in done ==> soonest <= RemainingIn(entries[k], now, limits)
        decreases entries.Keys - done
      {
        SomeRemain(entries.Keys, done);
        var k := Pick(entries.Keys - done);
        var remaining := limits.window as real - (now - entries[k].startedAt);
        if done == {} || remaining < soonest {
          soonest := remaining;
        }
        done := done + {k};
      }
      assert IsSoonest(entries, now, limits, soonest);
      return AtLeastOne(Ceil(soonest));
    }

    method Join(k: Key, id: WindowId, now: real)
      modifies this
      ensures entries == Joined(old(entries), k, id, now)
      ensures reservations == old(reservations) && nextWindow == old(nextWindow)
    {
      if k !in entries {
        entries := entries[k := Window(id, now, 0)];
      }
      entries := entries[k := entries[k].(attempts := entries[k].attempts + 1)];
    }

    method ReserveBoth(ip: Key, account: Key, r: ReservationId, now: real)
      requires ip != account
      modifies this
      ensures View() == Reserve(old(View()), old(entries), ip, account, r, now)
    {
      Join(ip, nextWindow, now);
      Join(account, nextWindow + 1, now);
      reservations := reservations[r := Reservation(ip, account, entries[ip].id, entries[account].id, Unfinished)];
      nextWindow := nextWindow + 2;
    }

    method TakePlaces(ip: Key, account: Key, r: ReservationId, now: real) returns (d: Decision)
      requires ip != account
      modifies this
      ensures TakesPlaces(old(View()), old(entries), ip, account, r, now, limits, View(), d)
    {
      var required := (if ip in entries then 0 else 1) + (if account in entries then 0 else 1);
      if |entries| + required > limits.maxEntries {
        RemoveExpiredWindows(now);
        required := (if ip in entries then 0 else 1) + (if account in entries then 0 else 1);
        if |entries| + required > limits.maxEntries {
          var retryAfter := CapacityRetryAfter(now);
          return Refused(retryAfter);
        }
      }
      ReserveBoth(ip, account, r, now);
      return Reserved;
    }

    method AdmitAttempt(ip: Key, account: Key, r: ReservationId, now: real) returns (d: Decision)
      requires ip != account
      modifies this
      ensures Admits(old(View()), ip, account, r, now, limits, View(), d)
    {
      var hasIp := ActiveWindow(ip, now);
      var hasAccount := ActiveWindow(account, now);
      if Full(entries, ip, limits) || Full(entries, account, limits) {
        return Refused(LimitRetry(entries, ip, account, now, limits));
      }
      d := TakePlaces(ip, account, r, now);
    }

    method BeginAttempt(ip: Key, account: Key, r: ReservationId, now: real) returns (d: Decision)
      requires ip != account
      modifies this
      ensures Begins(old(View()), ip, account, r, now, limits, View(), d)
    {
      if !limits.enabled {
        return NotThrottled;
      }
      d := AdmitAttempt(ip, account, r, now);
    }

    method Release(k: Key, id: WindowId)
      modifies this
      ensures entries == Released(old(entries), k, id)
      ensures reservations == old(reservations) && nextWindow == old(nextWindow)
    {
      if k !in entries || entries[k].id != id {
        return;
      }
      if entries[k].attempts <= 1 {
        entries := entries - {k};
      } else {
        entries := entries[k := entries[k].(attempts := entries[k].attempts - 1)];
      }
    }

    method FinishAttempt(r: ReservationId, o: AttemptOutcome)
      modifies this
      ensures View() == Finish(old(View()), r, o)
    {
      if r !in reservations || reservations[r].state.Finished? {
        return;
      }
      var v := reservations[r];
      reservations := reservations[r := v.(state := Finished(KeepsIp(o), KeepsAccount(o)))];
      if !(o == Success || o == AuthenticationFailed) {
        Release(v.ipKey, v.ipWindow);
      }
      if o != AuthenticationFailed {
        Release(v.accountKey, v.accountWindow);
      }
    }
  }
}
