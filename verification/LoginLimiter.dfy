/**
 The login limiter (api/login_rate_limit.go:47-103): at most eight failed logins in a window of five minutes,
 then a lock of five minutes, in a table of at most 4096 keys. Times are in nanoseconds; each operation is
 given the reading of the clock it takes.
 */
module LoginLimiter {
  import opened Wrappers

  const SECOND := 1_000_000_000
  const MINUTE := 60_000_000_000
  const WINDOW := 5 * MINUTE
  const LOCK := 5 * MINUTE
  const CLEANUP_PERIOD := MINUTE
  const MAX_FAILURES := 8
  const MAX_ENTRIES := 4096

  /** `lockedUntil` is None while it is Go's zero time, which is before every reading of the clock. */
  datatype Entry = Entry(failures: nat, windowStart: int, lockedUntil: Option<int>)

  type Entries = map<string, Entry>

  predicate Locked(e: Entry, now: int) {
    e.lockedUntil.Some? && now < e.lockedUntil.value
  }

  predicate Expired(e: Entry, now: int) {
    now - e.windowStart >= WINDOW
  }

  /** What a cleanup removes. */
  predicate Stale(e: Entry, now: int) {
    (e.lockedUntil.Some? ==> now > e.lockedUntil.value) && Expired(e, now)
  }

  predicate CleanupDue(lastCleanup: Option<int>, now: int) {
    lastCleanup.None? || now - lastCleanup.value >= CLEANUP_PERIOD
  }

  function Cleaned(entries: Entries, lastCleanup: Option<int>, now: int): (r: Entries)
    ensures r.Keys <= entries.Keys
  {
    if CleanupDue(lastCleanup, now) then map k | k in entries && !Stale(entries[k], now) :: entries[k] else entries
  }

  function AfterCleanup(lastCleanup: Option<int>, now: int): Option<int> {
    if CleanupDue(lastCleanup, now) then Some(now) else lastCleanup
  }

  /** `Duration.Round(time.Second)`: to the nearest second, halves away from zero. */
  function RoundToSecond(d: int): int {
    if d >= 0 then (d + SECOND / 2) / SECOND * SECOND else -((-d + SECOND / 2) / SECOND * SECOND)
  }

  /** The waiting time a refusal reports. */
  function Wait(entries: Entries, key: string, now: int, later: int): int {
    if key !in entries then if |entries| < MAX_ENTRIES then 0 else WINDOW
    else if Locked(entries[key], now) then RoundToSecond(entries[key].lockedUntil.value - later)
    else 0
  }

  /** A locked key is told the rest of its lock to within half a second, and never more than the whole lock. */
  lemma WaitIsRestOfLock(entries: Entries, key: string, now: int, later: int)
    requires key in entries && Locked(entries[key], now)
    ensures var rest := entries[key].lockedUntil.value - later;
      var wait := Wait(entries, key, now, later);
      && rest - SECOND / 2 <= wait <= rest + SECOND / 2 && wait % SECOND == 0
      && (rest <= LOCK ==> wait <= LOCK)
  {
  }

  /** The entry after one more failure. */
  function Failed(e: Option<Entry>, now: int): Entry {
    var state := if e.None? || Expired(e.value, now) then Entry(0, now, None) else e.value;
    var failures := state.failures + 1;
    Entry(failures, state.windowStart, if failures >= MAX_FAILURES then Some(now + LOCK) else state.lockedUntil)
  }

  /** The first failure opens a window of five minutes; within it the count grows, and the eighth locks the key for
      five minutes; after it a new window is opened. Times are in nanoseconds. */
  lemma EighthFailureLocks(e: Entry, now: int)
    ensures Failed(None, now) == Entry(1, now, None)
    ensures now - e.windowStart >= 300_000_000_000 ==> Failed(Some(e), now) == Entry(1, now, None)
    ensures now - e.windowStart < 300_000_000_000 && e.failures < 7 ==> Failed(Some(e), now) == e.(failures := e.failures + 1)
    ensures now - e.windowStart < 300_000_000_000 && e.failures >= 7 ==>
      Failed(Some(e), now) == Entry(e.failures + 1, e.windowStart, Some(now + 300_000_000_000))
  {
  }

  /** A cleanup, a minute after the last one at the earliest, keeps an entry unless its window of five minutes is over
      and its lock, if any, has ended. */
  lemma CleanedExactly(entries: Entries, lastCleanup: Option<int>, now: int)
    ensures lastCleanup.Some? && now - lastCleanup.value < 60_000_000_000 ==>
      Cleaned(entries, lastCleanup, now) == entries && AfterCleanup(lastCleanup, now) == lastCleanup
    ensures lastCleanup.None? || now - lastCleanup.value >= 60_000_000_000 ==>
      && AfterCleanup(lastCleanup, now) == Some(now)
      && (forall k :: k in Cleaned(entries, lastCleanup, now) ==> k in entries)
      && (forall k :: k in entries ==>
            (k in Cleaned(entries, lastCleanup, now) <==>
             now - entries[k].windowStart < 300_000_000_000 || (entries[k].lockedUntil.Some? && now <= entries[k].lockedUntil.value)))
      && (forall k :: k in Cleaned(entries, lastCleanup, now) ==> Cleaned(entries, lastCleanup, now)[k] == entries[k])
  {
  }

  function Find(entries: Entries, key: string): Option<Entry> {
    if key in entries then Some(entries[key]) else None
  }

  /** The state of the limiter, and one login attempt: asked at its start, decided at its end. */
  datatype Desk = Desk(entries: Entries, lastCleanup: Option<int>)

  datatype Try = Try(key: string, start: int, end: int, success: bool)

  function Swept(d: Desk, now: int): Desk {
    Desk(Cleaned(d.entries, d.lastCleanup, now), AfterCleanup(d.lastCleanup, now))
  }

  predicate Allows(d: Desk, key: string, now: int) {
    var entries := Swept(d, now).entries;
    if key in entries then !Locked(entries[key], now) else |entries| < MAX_ENTRIES
  }

  function AfterAsk(d: Desk, key: string, now: int): Desk {
    var s := Swept(d, now);
    if key in s.entries && !Locked(s.entries[key], now) && Expired(s.entries[key], now)
    then s.(entries := s.entries - {key}) else s
  }

  function AfterFailure(d: Desk, key: string, now: int): Desk {
    var s := Swept(d, now);
    if key !in s.entries && |s.entries| >= MAX_ENTRIES then s
    else s.(entries := s.entries[key := Failed(Find(s.entries, key), now)])
  }

  function AfterSuccess(d: Desk, key: string): Desk {
    d.(entries := d.entries - {key})
  }

  function AfterTry(d: Desk, t: Try): Desk {
    var asked := AfterAsk(d, t.key, t.start);
    if !Allows(d, t.key, t.start) then asked
    else if t.success then AfterSuccess(asked, t.key)
    else AfterFailure(asked, t.key, t.end)
  }

  // ---------------------------------------------------------------- the windows of one key

  predicate Sorted(w: seq<int>) {
    forall i, j :: 0 <= i <= j < |w| ==> w[i] <= w[j]
  }

  /** The failures of one window: the first opens it, at most eight fit. */
  predicate IsWindow(w: seq<int>) {
    1 <= |w| <= MAX_FAILURES && Sorted(w) && forall i :: 0 <= i < |w| ==> w[i] < w[0] + WINDOW
  }

  /** The time from which the key may open a new window after `w`. */
  predicate OpenAgain(w: seq<int>, now: int)
    requires w != []
  {
    now >= w[0] + WINDOW && (|w| == MAX_FAILURES ==> now >= w[MAX_FAILURES - 1] + LOCK)
  }

  ghost predicate WellSpaced(windows: seq<seq<int>>) {
    && (forall i :: 0 <= i < |windows| ==> IsWindow(windows[i]))
    && (forall i :: 0 <= i < |windows| - 1 ==> OpenAgain(windows[i], windows[i + 1][0]))
  }

  /** The entry of a key agrees with the failures recorded for it. */
  ghost predicate Agrees(windows: seq<seq<int>>, e: Option<Entry>, now: int) {
    && WellSpaced(windows)
    && (windows != [] ==> var w := windows[|windows| - 1];
        && w[|w| - 1] <= now
        && (e.None? ==> OpenAgain(w, now)))
    && (e.Some? ==> windows != [] && var w := windows[|windows| - 1];
        && e.value.failures == |w| && e.value.windowStart == w[0]
        && e.value.lockedUntil == if |w| == MAX_FAILURES then Some(w[MAX_FAILURES - 1] + LOCK) else None)
  }

  /** The failure `now` goes into the window of the entry or opens a new one. */
  function Recorded(windows: seq<seq<int>>, e: Option<Entry>, now: int): seq<seq<int>> {
    if windows == [] || e.None? || Expired(e.value, now) then windows + [[now]]
    else windows[|windows| - 1 := windows[|windows| - 1] + [now]]
  }

  lemma RecordedAgrees(windows: seq<seq<int>>, e: Option<Entry>, now: int)
    requires Agrees(windows, e, now)
    requires e.Some? ==> !Locked(e.value, now)
    ensures Agrees(Recorded(windows, e, now), Some(Failed(e, now)), now)
  {
  }

  lemma LaterAgrees(windows: seq<seq<int>>, e: Option<Entry>, now: int, later: int)
    requires Agrees(windows, e, now) && now <= later
    ensures Agrees(windows, e, later)
  {
  }

  /** Dropping an entry whose window and lock are over loses nothing. */
  lemma DroppedAgrees(windows: seq<seq<int>>, e: Entry, now: int)
    requires Agrees(windows, Some(e), now) && Expired(e, now) && !Locked(e, now)
    ensures Agrees(windows, None, now)
  {
  }

  // ---------------------------------------------------------------- failures in a sliding interval

  /** The times in `[from, from + WINDOW)`. */
  function CountIn(w: seq<int>, from: int): nat {
    if w == [] then 0 else CountIn(w[..|w| - 1], from) + if from <= w[|w| - 1] < from + WINDOW then 1 else 0
  }

  function Total(windows: seq<seq<int>>, from: int): nat {
    if windows == [] then 0 else Total(windows[..|windows| - 1], from) + CountIn(windows[|windows| - 1], from)
  }

  lemma {:induction false} CountBelow(w: seq<int>, from: int)
    ensures CountIn(w, from) <= |w|
    ensures w != [] && w[0] < from ==> CountIn(w, from) <= |w| - 1
    ensures (forall i :: 0 <= i < |w| ==> w[i] < from) ==> CountIn(w, from) == 0
    ensures CountIn(w, from) > 0 ==> exists i :: 0 <= i < |w| && from <= w[i] < from + WINDOW
  {
    if w != [] {
      CountBelow(w[..|w| - 1], from);
    }
  }

  lemma {:induction false} OlderWindowsBelow(windows: seq<seq<int>>, from: int)
    requires WellSpaced(windows)
    requires windows != [] ==> windows[|windows| - 1][0] + WINDOW <= from
    ensures Total(windows, from) == 0
  {
    if windows != [] {
      var last := |windows| - 1;
      CountBelow(windows[last], from);
      assert IsWindow(windows[last]);
      if last > 0 {
        assert OpenAgain(windows[last - 1], windows[last][0]);
      }
      OlderWindowsBelow(windows[..last], from);
    }
  }

  /** Two neighbouring windows share an interval with at most six failures of the older one. */
  lemma OlderShare(older: seq<int>, newer: seq<int>, from: int)
    requires IsWindow(older) && IsWindow(newer) && OpenAgain(older, newer[0])
    requires CountIn(newer, from) > 0
    ensures CountIn(older, from) <= MAX_FAILURES - 2
    ensures older[0] < from
  {
    CountBelow(newer, from);
    CountBelow(older, from);
  }

  /** However the windows fall, no interval of five minutes holds more than fourteen recorded failures. */
  lemma {:induction false} AtMostFourteen(windows: seq<seq<int>>, from: int)
    requires WellSpaced(windows)
    ensures Total(windows, from) <= 14
  {
    if windows != [] {
      var last := |windows| - 1;
      var older := windows[..last];
      CountBelow(windows[last], from);
      if CountIn(windows[last], from) == 0 {
        AtMostFourteen(older, from);
      } else if last > 0 {
        OlderShare(windows[last - 1], windows[last], from);
        if last > 1 {
          assert OpenAgain(windows[last - 2], windows[last - 1][0]);
        }
        OlderWindowsBelow(older[..last - 1], from);
      }
    }
  }

  /** Fourteen can happen: seven failures late in one window, all but the first inside the interval, then
      eight in the next. */
  lemma FourteenIsReached()
    ensures exists windows, from :: WellSpaced(windows) && Total(windows, from) == 14
  {
    var late := WINDOW - 1;
    var w := [0, late, late, late, late, late, late];
    var v := [WINDOW, WINDOW, WINDOW, WINDOW, WINDOW, WINDOW, WINDOW, WINDOW];
    var windows := [w, v];
    assert IsWindow(w) && IsWindow(v) && OpenAgain(w, v[0]);
    CountAll([late, late, late, late, late, late], late);
    CountAll(v, late);
    CountFirst(w, late);
    assert w[1..] == [late, late, late, late, late, late];
    assert windows[..1] == [w] && windows[..1][..0] == [];
    assert Total(windows[..1], late) == 6 && CountIn(v, late) == 8;
    assert Total(windows, late) == 14;
  }

  lemma {:induction false} CountAll(w: seq<int>, from: int)
    requires forall i :: 0 <= i < |w| ==> from <= w[i] < from + WINDOW
    ensures CountIn(w, from) == |w|
  {
    if w != [] {
      CountAll(w[..|w| - 1], from);
    }
  }

  lemma {:induction false} CountFirst(w: seq<int>, from: int)
    requires w != [] && w[0] < from
    ensures CountIn(w, from) == CountIn(w[1..], from)
  {
    if |w| == 1 {
      assert w[..0] == [];
    } else {
      CountFirst(w[..|w| - 1], from);
      assert w[..|w| - 1][1..] == w[1..][..|w| - 2];
    }
  }

  // ---------------------------------------------------------------- the table and the histories

  type History = map<string, seq<seq<int>>>

  function WindowsOf(history: History, key: string): seq<seq<int>> {
    if key in history then history[key] else []
  }

  /** The table agrees with the recorded failures of every key. */
  ghost predicate InStep(entries: Entries, history: History, now: int) {
    forall key :: Agrees(WindowsOf(history, key), Find(entries, key), now)
  }

  lemma InStepLater(entries: Entries, history: History, now: int, later: int)
    requires InStep(entries, history, now) && now <= later
    ensures InStep(entries, history, later)
  {
    hide Agrees;
    forall key
      ensures Agrees(WindowsOf(history, key), Find(entries, key), later)
    {
      LaterAgrees(WindowsOf(history, key), Find(entries, key), now, later);
    }
  }

  /** Removing entries that are over keeps the table in step. */
  lemma InStepWithout(entries: Entries, smaller: Entries, history: History, now: int)
    requires InStep(entries, history, now)
    requires forall k :: k in smaller ==> k in entries && smaller[k] == entries[k]
    requires forall k :: k in entries && k !in smaller ==> Expired(entries[k], now) && !Locked(entries[k], now)
    ensures InStep(smaller, history, now)
  {
    hide Agrees, Expired, Locked;
    forall key
      ensures Agrees(WindowsOf(history, key), Find(smaller, key), now)
    {
      assert Agrees(WindowsOf(history, key), Find(entries, key), now);
      if key in entries && key !in smaller {
        DroppedAgrees(WindowsOf(history, key), entries[key], now);
      }
    }
  }

  lemma CleanedDropsStale(entries: Entries, lastCleanup: Option<int>, now: int)
    ensures var r := Cleaned(entries, lastCleanup, now);
      && (forall k :: k in r ==> k in entries && r[k] == entries[k])
      && (forall k :: k in entries && k !in r ==> Expired(entries[k], now) && !Locked(entries[k], now))
      && |r| <= |entries|
  {
    SubsetSmaller(Cleaned(entries, lastCleanup, now).Keys, entries.Keys);
  }

  lemma SubsetSmaller(a: set<string>, b: set<string>)
    requires a <= b
    ensures |a| <= |b|
  {
    assert b == a + (b - a);
    if a != b {
      var x :| x in b - a;
      SubsetSmaller(a, b - {x});
    }
  }

  lemma RemovalShrinks(entries: Entries, key: string)
    ensures |entries - {key}| <= |entries|
  {
    SubsetSmaller((entries - {key}).Keys, entries.Keys);
  }

  lemma InsertionGrows(entries: Entries, key: string, e: Entry)
    ensures |entries[key := e]| <= |entries| + if key in entries then 0 else 1
  {
    assert entries[key := e].Keys == entries.Keys + {key};
  }

  lemma InStepRecorded(entries: Entries, history: History, key: string, now: int)
    requires InStep(entries, history, now)
    requires key in entries ==> !Locked(entries[key], now)
    ensures InStep(entries[key := Failed(Find(entries, key), now)],
                   history[key := Recorded(WindowsOf(history, key), Find(entries, key), now)], now)
  {
    hide Agrees, Failed, Recorded, Locked;
    var entries' := entries[key := Failed(Find(entries, key), now)];
    var history' := history[key := Recorded(WindowsOf(history, key), Find(entries, key), now)];
    forall k
      ensures Agrees(WindowsOf(history', k), Find(entries', k), now)
    {
      assert Agrees(WindowsOf(history, k), Find(entries, k), now);
      if k == key {
        RecordedAgrees(WindowsOf(history, k), Find(entries, k), now);
      }
    }
  }

  lemma InStepCleared(entries: Entries, history: History, key: string, now: int)
    requires InStep(entries, history, now)
    ensures InStep(entries - {key}, history[key := []], now)
  {
    hide Agrees;
    NoHistoryAgrees(now);
    forall k
      ensures Agrees(WindowsOf(history[key := []], k), Find(entries - {key}, k), now)
    {
      assert Agrees(WindowsOf(history, k), Find(entries, k), now);
    }
  }

  lemma NoHistoryAgrees(now: int)
    ensures Agrees([], None, now)
  {
  }

  /** One failure more, in the last window or in a new one. */
  predicate OneMore(windows: seq<seq<int>>, after: seq<seq<int>>, now: int) {
    after == windows + [[now]] ||
    (windows != [] && after == windows[|windows| - 1 := windows[|windows| - 1] + [now]])
  }

  // ---------------------------------------------------------------- the limiter

  class Limiter {
    var entries: Entries
    var lastCleanup: Option<int>
    /** The failures recorded for each key since its last success, window by window. */
    ghost var history: map<string, seq<seq<int>>>
    ghost var clock: int

    ghost predicate Bounded()
      reads this
    {
      |entries| <= MAX_ENTRIES
    }

    ghost function Windows(key: string): seq<seq<int>>
      reads this
    {
      WindowsOf(history, key)
    }

    ghost predicate Valid()
      reads this
    {
      Bounded() && InStep(entries, history, clock)
    }

    constructor ()
      ensures Valid() && entries == map[] && forall key :: Windows(key) == []
    {
      entries, lastCleanup := map[], None;
      history, clock := map[], 0;
      NoHistoryAgrees(0);
    }

    method CleanupLocked(now: int)
      modifies `entries, `lastCleanup
      ensures entries == Cleaned(old(entries), old(lastCleanup), now)
      ensures lastCleanup == AfterCleanup(old(lastCleanup), now)
    {
      if CleanupDue(lastCleanup, now) {
        var todo := entries.Keys;
        while todo != {}
          invariant todo <= old(entries).Keys
          invariant entries == map k | k in old(entries) && (k in todo || !Stale(old(entries)[k], now)) :: old(entries)[k]
        {
          var k :| k in todo;
          todo := todo - {k};
          if Stale(entries[k], now) {
            entries := entries - {k};
          }
        }
        lastCleanup := Some(now);
      }
    }

    /** `loginAllowed`; the waiting time of a locked key is taken from a later reading of the clock. */
    method LoginAllowed(key: string, now: int, later: int) returns (allowed: bool, wait: int)
      modifies `entries, `lastCleanup
      ensures var cleaned := Cleaned(old(entries), old(lastCleanup), now);
        && (allowed <==> if key in cleaned then !Locked(cleaned[key], now) else |cleaned| < MAX_ENTRIES)
        && entries == if key in cleaned && !Locked(cleaned[key], now) && Expired(cleaned[key], now) then cleaned - {key} else cleaned
      ensures wait == Wait(Cleaned(old(entries), old(lastCleanup), now), key, now, later)
      ensures key !in old(entries) ==> (allowed <==> |entries| < 4096) && wait == if allowed then 0 else 300_000_000_000
      ensures lastCleanup == AfterCleanup(old(lastCleanup), now)
      ensures old(Bounded()) ==> Bounded()
      // A locked key is refused and stays.
      ensures key in old(entries) && Locked(old(entries)[key], now) ==> !allowed
      ensures forall k :: k in old(entries) && Locked(old(entries)[k], now) ==> k in entries && entries[k] == old(entries)[k]
    {
      CleanupLocked(now);
      CleanedDropsStale(old(entries), old(lastCleanup), now);
      if key !in entries {
        allowed := |entries| < MAX_ENTRIES;
        wait := if allowed then 0 else WINDOW;
        return;
      }
      if Locked(entries[key], now) {
        return false, RoundToSecond(entries[key].lockedUntil.value - later);
      }
      if Expired(entries[key], now) {
        RemovalShrinks(entries, key);
        entries := entries - {key};
      }
      allowed, wait := true, 0;
    }

    method RecordLoginFailure(key: string, now: int)
      modifies `entries, `lastCleanup
      ensures var cleaned := Cleaned(old(entries), old(lastCleanup), now);
        entries == if key !in cleaned && |cleaned| >= MAX_ENTRIES then cleaned
                   else cleaned[key := Failed(Find(cleaned, key), now)]
      ensures lastCleanup == AfterCleanup(old(lastCleanup), now)
      ensures old(Bounded()) ==> Bounded()
      ensures forall k :: k in old(entries) && Locked(old(entries)[k], now) ==> k in entries && (k != key ==> entries[k] == old(entries)[k])
      // A failure that comes late, while its key is locked, ends the lock exactly when the window is over.
      ensures key in old(entries) && Locked(old(entries)[key], now) ==>
        (Locked(entries[key], now) <==> !Expired(old(entries)[key], now))
    {
      CleanupLocked(now);
      CleanedDropsStale(old(entries), old(lastCleanup), now);
      if key !in entries && |entries| >= MAX_ENTRIES {
        return;
      }
      var state := if key in entries then entries[key] else Entry(0, now, None);
      if key !in entries || Expired(state, now) {
        state := Entry(0, now, None);
      }
      state := state.(failures := state.failures + 1);
      if state.failures >= MAX_FAILURES {
        state := state.(lockedUntil := Some(now + LOCK));
      }
      InsertionGrows(entries, key, state);
      entries := entries[key := state];
    }

    method ClearLoginFailures(key: string)
      modifies `entries
      ensures entries == old(entries) - {key}
      ensures old(Bounded()) ==> Bounded()
    {
      RemovalShrinks(entries, key);
      entries := entries - {key};
    }

    ghost function Now(): Desk
      reads this
    {
      Desk(entries, lastCleanup)
    }

    /** One login attempt, alone: asked at its start, decided at its end. Every allowed failure is recorded. */
    method Attempt(t: Try) returns (allowed: bool)
      requires Valid() && clock <= t.start <= t.end
      modifies this
      ensures Valid() && clock == t.end
      ensures allowed == Allows(old(Now()), t.key, t.start) && Now() == AfterTry(old(Now()), t)
      ensures forall k :: k != t.key ==> Windows(k) == old(Windows(k))
      ensures !allowed ==> Windows(t.key) == old(Windows(t.key))
      ensures allowed && t.success ==> Windows(t.key) == []
      ensures allowed && !t.success ==> OneMore(old(Windows(t.key)), Windows(t.key), t.end)
      // A locked key is refused, and its lock stays until it ends.
      ensures t.key in old(entries) && Locked(old(entries)[t.key], t.start) ==> !allowed
      ensures forall k :: k in old(entries) && Locked(old(entries)[k], t.end) ==> k in entries && entries[k] == old(entries)[k]
    {
      hide Agrees, InStep, Locked, Expired, OneMore, Find, WindowsOf, Allows, Swept, AfterAsk, AfterFailure;
      LockedEarlier(entries, t.start, t.end);
      allowed := AskUnlocked(t.key, t.start);
      InStepLater(entries, history, t.start, t.end);
      clock := t.end;
      if t.key in entries && allowed {
        UnlockedStays(entries[t.key], t.start, t.end);
      }
      if allowed && t.success {
        SucceedUnlocked(t.key);
      } else if allowed {
        FailUnlocked(t.key, t.end);
      }
    }

    /** The question of an attempt: entries that are over may go, the record of failures stays as it is. */
    method AskUnlocked(key: string, now: int) returns (allowed: bool)
      requires Valid() && clock <= now
      modifies `entries, `lastCleanup, `clock
      ensures Valid() && clock == now
      ensures allowed == Allows(old(Now()), key, now) && Now() == AfterAsk(old(Now()), key, now)
      ensures allowed ==> if key in entries then !Locked(entries[key], now) else |entries| < MAX_ENTRIES
      ensures key in old(entries) && Locked(old(entries)[key], now) ==> !allowed
      ensures forall k :: k in old(entries) && Locked(old(entries)[k], now) ==> k in entries && entries[k] == old(entries)[k]
    {
      hide Agrees, InStep, Locked, Expired, Stale, Cleaned, Find, Wait;
      InStepLater(entries, history, clock, now);
      CleanedDropsStale(entries, lastCleanup, now);
      ghost var cleaned := Cleaned(entries, lastCleanup, now);
      InStepWithout(entries, cleaned, history, now);
      var wait: int;
      allowed, wait := LoginAllowed(key, now, now);
      if key in cleaned && key !in entries {
        ProperSubset(entries, cleaned, key);
      }
      InStepWithout(cleaned, entries, history, now);
      clock := now;
    }

    /** The success of an allowed attempt starts a new history. */
    method SucceedUnlocked(key: string)
      requires Valid() && (key in entries ==> !Locked(entries[key], clock))
      modifies `entries, `history
      ensures Valid() && Windows(key) == [] && Now() == AfterSuccess(old(Now()), key)
      ensures forall k :: k != key ==> Windows(k) == old(Windows(k))
      ensures forall k :: k in old(entries) && Locked(old(entries)[k], clock) ==> k in entries && entries[k] == old(entries)[k]
    {
      hide Agrees, InStep, Locked, Find;
      InStepCleared(entries, history, key, clock);
      ClearLoginFailures(key);
      history := history[key := []];
    }

    /** The failure of an allowed attempt, with its record in the history. */
    method FailUnlocked(key: string, now: int)
      requires Valid() && now == clock && if key in entries then !Locked(entries[key], clock) else |entries| < MAX_ENTRIES
      modifies `entries, `lastCleanup, `history
      ensures Valid() && Now() == AfterFailure(old(Now()), key, now)
      ensures forall k :: k != key ==> Windows(k) == old(Windows(k))
      ensures OneMore(old(Windows(key)), Windows(key), clock)
      ensures forall k :: k in old(entries) && Locked(old(entries)[k], clock) ==> k in entries && entries[k] == old(entries)[k]
    {
      hide Agrees, InStep, Failed, Locked, Expired, Stale, Recorded, OneMore, Cleaned;
      CleanedDropsStale(entries, lastCleanup, clock);
      ghost var cleaned := Cleaned(entries, lastCleanup, clock);
      InStepWithout(entries, cleaned, history, clock);
      InStepRecorded(cleaned, history, key, clock);
      RecordedIsOneMore(Windows(key), Find(cleaned, key), clock);
      if key in entries && key !in cleaned {
        ProperSubset(cleaned, entries, key);
      }
      RecordLoginFailure(key, now);
      history := history[key := Recorded(Windows(key), Find(cleaned, key), clock)];
    }

    /** Every run of attempts, one at a time on a clock that never goes back: the answers are those of the table,
        which stays bounded, and at no time has a key more than fourteen allowed failures since its last success in
        any half-open interval of five minutes. */
    method Run(tries: seq<Try>) returns (answers: seq<bool>)
      requires Valid() && forall key :: Windows(key) == []
      requires Ordered(clock, tries)
      modifies this
      ensures Valid()
      ensures Now() == AfterAll(old(Now()), tries) && answers == Answers(old(Now()), tries)
      ensures |entries| <= 4096
      ensures forall n, key, from :: 0 <= n <= |tries| ==> CountIn(FailuresSince(tries[..n], answers, key), from) <= 14
    {
      hide InStep, Total, OneMore, CountIn, FailuresSince, AfterTry, Allows, WindowsOf;
      answers := [];
      NothingYet(tries);
      for i := 0 to |tries|
        invariant Valid() && |answers| == i
        invariant i < |tries| ==> clock <= tries[i].start
        invariant Now() == AfterAll(old(Now()), tries[..i]) && answers == Answers(old(Now()), tries[..i])
        invariant forall key :: FailuresSince(tries[..i], answers, key) == Flat(Windows(key))
        invariant forall n, key, from :: 0 <= n <= i ==> CountIn(FailuresSince(tries[..n], answers, key), from) <= 14
      {
        ghost var earlier := answers;
        ghost var before := history;
        var allowed := Attempt(tries[i]);
        answers := answers + [allowed];
        NextTry(old(Now()), tries, i);
        forall key
          ensures FailuresSince(tries[..i + 1], answers, key) == Flat(Windows(key))
        {
          NextFailures(tries, i, earlier, allowed, key);
          if key == tries[i].key && allowed && !tries[i].success {
            FlatOneMore(WindowsOf(before, key), Windows(key), tries[i].end);
          }
        }
        forall n, key, from | 0 <= n <= i + 1
          ensures CountIn(FailuresSince(tries[..n], answers, key), from) <= 14
        {
          if n <= i {
            SameFailures(tries[..n], earlier, answers, key);
            assert CountIn(FailuresSince(tries[..n], earlier, key), from) <= 14;
          } else {
            InStepBounds(entries, history, clock, key, from);
            assert FailuresSince(tries[..i + 1], answers, key) == Flat(Windows(key));
          }
        }
      }
      assert tries[..|tries|] == tries;
    }
  }

  // ---------------------------------------------------------------- runs of attempts

  /** `tries` happen one at a time, from `clock` on. */
  predicate Ordered(clock: int, tries: seq<Try>) {
    && (forall i :: 0 <= i < |tries| ==> clock <= tries[i].start <= tries[i].end)
    && (forall i, j :: 0 <= i < j < |tries| ==> tries[i].end <= tries[j].start)
  }

  function AfterAll(d: Desk, tries: seq<Try>): Desk {
    if tries == [] then d else AfterTry(AfterAll(d, tries[..|tries| - 1]), tries[|tries| - 1])
  }

  function Answers(d: Desk, tries: seq<Try>): (r: seq<bool>)
    ensures |r| == |tries|
  {
    if tries == [] then []
    else
      var last := tries[|tries| - 1];
      Answers(d, tries[..|tries| - 1]) + [Allows(AfterAll(d, tries[..|tries| - 1]), last.key, last.start)]
  }

  /** The times of the key's allowed failures after its last allowed success. */
  function FailuresSince(tries: seq<Try>, answers: seq<bool>, key: string): seq<int>
    requires |tries| <= |answers|
  {
    if tries == [] then []
    else
      var n := |tries| - 1;
      var before := FailuresSince(tries[..n], answers, key);
      if tries[n].key != key || !answers[n] then before else if tries[n].success then [] else before + [tries[n].end]
  }

  function Flat(windows: seq<seq<int>>): seq<int> {
    if windows == [] then [] else Flat(windows[..|windows| - 1]) + windows[|windows| - 1]
  }

  lemma NothingYet(tries: seq<Try>)
    ensures tries[..0] == [] && Flat([]) == []
    ensures forall answers, key :: FailuresSince(tries[..0], answers, key) == []
    ensures forall from :: CountIn([], from) == 0
  {
  }

  lemma NextTry(d: Desk, tries: seq<Try>, i: nat)
    requires i < |tries|
    ensures var before := AfterAll(d, tries[..i]);
      && AfterAll(d, tries[..i + 1]) == AfterTry(before, tries[i])
      && Answers(d, tries[..i + 1]) == Answers(d, tries[..i]) + [Allows(before, tries[i].key, tries[i].start)]
  {
    assert tries[..i + 1][..i] == tries[..i];
  }

  lemma {:induction false} SameFailures(tries: seq<Try>, answers: seq<bool>, more: seq<bool>, key: string)
    requires |tries| <= |answers| && answers <= more
    ensures FailuresSince(tries, answers, key) == FailuresSince(tries, more, key)
  {
    if tries != [] {
      SameFailures(tries[..|tries| - 1], answers, more, key);
    }
  }

  lemma NextFailures(tries: seq<Try>, i: nat, answers: seq<bool>, allowed: bool, key: string)
    requires i < |tries| && |answers| == i
    ensures var before := FailuresSince(tries[..i], answers, key);
      FailuresSince(tries[..i + 1], answers + [allowed], key) ==
      if tries[i].key != key || !allowed then before else if tries[i].success then [] else before + [tries[i].end]
  {
    assert tries[..i + 1][..i] == tries[..i];
    SameFailures(tries[..i], answers, answers + [allowed], key);
  }

  lemma FlatOneMore(windows: seq<seq<int>>, after: seq<seq<int>>, now: int)
    requires OneMore(windows, after, now)
    ensures Flat(after) == Flat(windows) + [now]
  {
    if after == windows + [[now]] {
      assert after[..|windows|] == windows;
    } else {
      var last := |windows| - 1;
      assert after[..last] == windows[..last];
      assert Flat(windows[..last]) + (windows[last] + [now]) == Flat(windows) + [now];
    }
  }

  lemma {:induction false} CountAppend(w: seq<int>, v: seq<int>, from: int)
    ensures CountIn(w + v, from) == CountIn(w, from) + CountIn(v, from)
  {
    if v == [] {
      assert w + v == w;
    } else {
      CountAppend(w, v[..|v| - 1], from);
      assert (w + v)[..|w + v| - 1] == w + v[..|v| - 1];
    }
  }

  lemma {:induction false} TotalIsCount(windows: seq<seq<int>>, from: int)
    ensures CountIn(Flat(windows), from) == Total(windows, from)
  {
    if windows != [] {
      TotalIsCount(windows[..|windows| - 1], from);
      CountAppend(Flat(windows[..|windows| - 1]), windows[|windows| - 1], from);
    }
  }

  lemma ProperSubset(smaller: Entries, entries: Entries, key: string)
    requires smaller.Keys <= entries.Keys && key in entries && key !in smaller
    ensures |smaller| < |entries|
  {
    SubsetSmaller(smaller.Keys, entries.Keys - {key});
  }

  /** A lock holds over every run of attempts that ends before it: the entry stays and the key is refused. */
  lemma {:induction false} LockHolds(d: Desk, clock: int, tries: seq<Try>, key: string)
    requires Ordered(clock, tries) && key in d.entries
    requires forall i :: 0 <= i < |tries| ==> Locked(d.entries[key], tries[i].end)
    ensures var after := AfterAll(d, tries).entries; key in after && after[key] == d.entries[key]
    ensures forall i :: 0 <= i < |tries| && tries[i].key == key ==> !Answers(d, tries)[i]
  {
    if tries != [] {
      var n := |tries| - 1;
      LockHolds(d, clock, tries[..n], key);
      LockHoldsOnce(AfterAll(d, tries[..n]), tries[n], key);
    }
  }

  lemma LockHoldsOnce(d: Desk, t: Try, key: string)
    requires t.start <= t.end && key in d.entries && Locked(d.entries[key], t.end)
    ensures key in AfterTry(d, t).entries && AfterTry(d, t).entries[key] == d.entries[key]
    ensures t.key == key ==> !Allows(d, key, t.start)
  {
    var asked := AfterAsk(d, t.key, t.start);
    assert key in asked.entries && asked.entries[key] == d.entries[key];
  }

  /** Eight failures within four minutes lock a key for five more. A failure of an attempt asked before the lock
      and recorded after the sixth minute ends the lock. */
  lemma LateFailureEndsLock()
    ensures var locked := Entry(8, 0, Some(4 * MINUTE + LOCK));
      var after := AfterFailure(Desk(map["user" := locked], None), "user", 6 * MINUTE);
      && Locked(locked, 6 * MINUTE) && "user" in after.entries && !Locked(after.entries["user"], 6 * MINUTE)
      && Allows(after, "user", 6 * MINUTE)
  {
    var d := Desk(map["user" := Entry(8, 0, Some(4 * MINUTE + LOCK))], None);
    assert Swept(d, 6 * MINUTE).entries == d.entries;
    var after := AfterFailure(d, "user", 6 * MINUTE);
    assert after.entries["user"] == Entry(1, 6 * MINUTE, None);
    assert Swept(after, 6 * MINUTE).entries == after.entries;
  }

  lemma UnlockedStays(e: Entry, now: int, later: int)
    requires !Locked(e, now) && now <= later
    ensures !Locked(e, later)
  {
  }

  lemma LockedEarlier(entries: Entries, now: int, later: int)
    requires now <= later
    ensures forall k :: k in entries && Locked(entries[k], later) ==> Locked(entries[k], now)
  {
  }

  lemma RecordedIsOneMore(windows: seq<seq<int>>, e: Option<Entry>, now: int)
    ensures OneMore(windows, Recorded(windows, e, now), now)
  {
  }

  lemma InStepBounds(entries: Entries, history: History, now: int, key: string, from: int)
    requires InStep(entries, history, now)
    ensures Total(WindowsOf(history, key), from) <= 14
    ensures CountIn(Flat(WindowsOf(history, key)), from) <= 14
  {
    TotalIsCount(WindowsOf(history, key), from);
    assert Agrees(WindowsOf(history, key), Find(entries, key), now);
    AtMostFourteen(WindowsOf(history, key), from);
  }
}
