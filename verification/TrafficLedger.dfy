/**
 Traffic accounting under every interleaving (core/tracker_stats.go:37-153; service/stats.go:26-93;
 service/client.go:469-614). Connections add bytes to the counters they hold at any moment. `GetStats` takes the
 tracker's lock but swaps the counters one by one; several saves may be under way. The books are kept for one client
 name, `watch`.
 */
module TrafficLedger {
  import opened Clients
  import opened TrafficStore
  import opened Wrappers

  /** Bytes in both directions. */
  datatype Bytes = Bytes(up: nat, down: nat) {
    function Of(direction: bool): nat {
      if direction then up else down
    }
  }

  function Plus(a: Bytes, b: Bytes): Bytes {
    Bytes(a.up + b.up, a.down + b.down)
  }

  function Zero(): Bytes {
    Bytes(0, 0)
  }

  function One(direction: bool, n: nat): Bytes {
    if direction then Bytes(n, 0) else Bytes(0, n)
  }

  /** A user's counter; connections refer to it by its position, also after the tracker has forgotten it. */
  datatype Counter = Counter(user: string, bytes: Bytes)

  /** `GetStats` under way: the users it has still to visit, the download bytes it has already taken from the
      one it is visiting, and the rows so far. */
  datatype Collection = Collection(pending: set<string>, held: Option<(string, nat)>, rows: seq<Row>)

  datatype Ledger = Ledger(counted: Bytes, persisted: Bytes, dropped: Bytes)

  datatype State = State(
    counters: seq<Counter>, users: map<string, nat>, collecting: Option<Collection>, batches: seq<seq<Row>>,
    clients: Table, ledger: Ledger)

  datatype Step =
    | Connect(user: string)
    | Count(counter: nat, direction: bool, n: nat)
    | Begin
    | SwapWrite(user: string)
    | SwapRead
    | End
    | Persist(batch: nat)
    | FailToPersist(batch: nat)
    | Job(dt: int)
    | Reset

  // ---------------------------------------------------------------- the machine

  /** A lock is held while statistics are collected; the database runs one transaction after the other. */
  predicate Enabled(s: State, step: Step) {
    match step
    case Connect(user) => s.collecting.None? && user != ""
    case Count(counter, direction, n) => counter < |s.counters|
    case Begin => s.collecting.None?
    case SwapWrite(user) =>
      && s.collecting.Some? && s.collecting.value.held.None? && user in s.collecting.value.pending
      && user in s.users && s.users[user] < |s.counters|
    case SwapRead =>
      && s.collecting.Some? && s.collecting.value.held.Some?
      && var user := s.collecting.value.held.value.0; user in s.users && s.users[user] < |s.counters|
    case End => s.collecting.Some? && s.collecting.value.held.None? && s.collecting.value.pending == {}
    case Persist(batch) => batch < |s.batches|
    case FailToPersist(batch) => batch < |s.batches|
    case Job(dt) => true
    case Reset => s.collecting.None?
  }

  function RowsOf(user: string, down: nat, up: nat): seq<Row> {
    if down > 0 || up > 0 then [Row("user", user, false, down)] + [Row("user", user, true, up)] else []
  }

  function TrafficOf(rows: seq<Row>, user: string): Bytes {
    Bytes(Traffic(rows, "user", user, true), Traffic(rows, "user", user, false))
  }

  /** What the tracker's own counter of the user holds. */
  function Live(s: State, user: string): Bytes {
    if user in s.users && s.users[user] < |s.counters| then s.counters[s.users[user]].bytes else Zero()
  }

  function After(watch: string, s: State, step: Step): State
    requires Enabled(s, step)
  {
    match step
    case Connect(user) =>
      if user in s.users then s
      else s.(counters := s.counters + [Counter(user, Zero())], users := s.users[user := |s.counters|])
    case Count(counter, direction, n) =>
      var c := s.counters[counter];
      var known := c.user in s.users && s.users[c.user] == counter;
      var b := One(direction, n);
      s.(counters := s.counters[counter := c.(bytes := Plus(c.bytes, b))],
         ledger := if c.user != watch then s.ledger
                   else s.ledger.(counted := Plus(s.ledger.counted, b),
                                  dropped := if known then s.ledger.dropped else Plus(s.ledger.dropped, b)))
    case Begin => s.(collecting := Some(Collection(s.users.Keys, None, [])))
    case SwapWrite(user) =>
      var c := s.counters[s.users[user]];
      s.(counters := s.counters[s.users[user] := c.(bytes := c.bytes.(down := 0))],
         collecting := Some(s.collecting.value.(held := Some((user, c.bytes.down)))))
    case SwapRead =>
      var (user, down) := s.collecting.value.held.value;
      var c := s.counters[s.users[user]];
      s.(counters := s.counters[s.users[user] := c.(bytes := c.bytes.(up := 0))],
         collecting := Some(Collection(s.collecting.value.pending - {user}, None,
                                       s.collecting.value.rows + RowsOf(user, down, c.bytes.up))))
    case End => s.(collecting := None, batches := s.batches + [s.collecting.value.rows])
    case Persist(i) =>
      s.(clients := PaidTable(s.clients, s.batches[i]), batches := s.batches[..i] + s.batches[i + 1..],
         ledger := s.ledger.(persisted := Plus(s.ledger.persisted, TrafficOf(s.batches[i], watch))))
    case FailToPersist(i) =>
      s.(batches := s.batches[..i] + s.batches[i + 1..],
         ledger := s.ledger.(dropped := Plus(s.ledger.dropped, TrafficOf(s.batches[i], watch))))
    case Job(dt) => s.(clients := TableAfterJob(s.clients, dt))
    case Reset => s.(users := map[], ledger := s.ledger.(dropped := Plus(s.ledger.dropped, Live(s, watch))))
  }

  function Initial(clients: Table): State {
    State([], map[], None, [], clients, Ledger(Zero(), Zero(), Zero()))
  }

  /** The steps can be taken one after the other. */
  predicate Runs(watch: string, s: State, steps: seq<Step>)
    decreases |steps|
  {
    steps == [] || (Enabled(s, steps[0]) && Runs(watch, After(watch, s, steps[0]), steps[1..]))
  }

  function Final(watch: string, s: State, steps: seq<Step>): State
    requires Runs(watch, s, steps)
    decreases |steps|
  {
    if steps == [] then s else Final(watch, After(watch, s, steps[0]), steps[1..])
  }

  // ---------------------------------------------------------------- where the bytes are

  function InBatches(batches: seq<seq<Row>>, user: string): Bytes {
    if batches == [] then Zero()
    else Plus(InBatches(batches[..|batches| - 1], user), TrafficOf(batches[|batches| - 1], user))
  }

  function InHand(held: Option<(string, nat)>, user: string): Bytes {
    if held.Some? && held.value.0 == user then Bytes(0, held.value.1) else Zero()
  }

  function InCollection(collecting: Option<Collection>, user: string): Bytes {
    if collecting.None? then Zero()
    else Plus(TrafficOf(collecting.value.rows, user), InHand(collecting.value.held, user))
  }

  /** Collected but not yet saved. */
  function InFlight(s: State, user: string): Bytes {
    Plus(InBatches(s.batches, user), InCollection(s.collecting, user))
  }

  ghost predicate Sound(s: State) {
    && (forall u :: u in s.users ==> s.users[u] < |s.counters| && s.counters[s.users[u]].user == u)
    && (s.collecting.Some? ==> s.collecting.value.pending <= s.users.Keys)
    && (s.collecting.Some? && s.collecting.value.held.Some? ==> s.collecting.value.held.value.0 in s.collecting.value.pending)
  }

  ghost predicate Balanced(watch: string, s: State) {
    s.ledger.counted == Plus(Plus(Plus(Live(s, watch), InFlight(s, watch)), s.ledger.persisted), s.ledger.dropped)
  }

  /** Every row of the name has grown by exactly what was persisted, and no other row has. */
  ghost predicate Credits(watch: string, start: Table, s: State) {
    && s.clients.Keys == start.Keys
    && forall id :: id in start ==>
      && s.clients[id].name == start[id].name
      && (start[id].name == watch ==>
          && s.clients[id].up + s.clients[id].totalUp == start[id].up + start[id].totalUp + s.ledger.persisted.up
          && s.clients[id].down + s.clients[id].totalDown == start[id].down + start[id].totalDown + s.ledger.persisted.down)
  }

  // ---------------------------------------------------------------- each step keeps the books

  lemma BatchAdded(batches: seq<seq<Row>>, rows: seq<Row>, user: string)
    ensures InBatches(batches + [rows], user) == Plus(InBatches(batches, user), TrafficOf(rows, user))
  {
    assert (batches + [rows])[..|batches|] == batches;
  }

  lemma BatchRemoved(batches: seq<seq<Row>>, i: nat, user: string)
    requires i < |batches|
    ensures InBatches(batches, user) == Plus(InBatches(batches[..i] + batches[i + 1..], user), TrafficOf(batches[i], user))
    decreases |batches|
  {
    hide TrafficOf, InBatches;
    var n := |batches| - 1;
    var (most, last) := (batches[..n], batches[n]);
    assert batches == most + [last];
    BatchAdded(most, last, user);
    if i == n {
      assert batches[..i] + batches[i + 1..] == most;
    } else {
      BatchRemoved(most, i, user);
      assert batches[..i] + batches[i + 1..] == most[..i] + most[i + 1..] + [last];
      BatchAdded(most[..i] + most[i + 1..], last, user);
    }
  }

  lemma RowsAdded(rows: seq<Row>, name: string, down: nat, up: nat, user: string)
    ensures TrafficOf(rows + RowsOf(name, down, up), user) ==
      Plus(TrafficOf(rows, user), if name == user then Bytes(up, down) else Zero())
  {
    if down > 0 || up > 0 {
      var first, second := Row("user", name, false, down), Row("user", name, true, up);
      assert rows + RowsOf(name, down, up) == rows + [first] + [second];
      forall d: bool
        ensures Traffic(rows + [first] + [second], "user", user, d) ==
          Traffic(rows, "user", user, d) + if name == user then (if d then up else down) else 0
      {
        TrafficAppend(rows, first, "user", user, d);
        TrafficAppend(rows + [first], second, "user", user, d);
      }
    } else {
      assert rows + RowsOf(name, down, up) == rows;
    }
  }

  lemma StepKeepsSound(watch: string, s: State, step: Step)
    requires Enabled(s, step) && Sound(s)
    ensures Sound(After(watch, s, step))
  {
  }

  lemma CountingBalances(watch: string, s: State, step: Step)
    requires Enabled(s, step) && Sound(s) && Balanced(watch, s) && (step.Connect? || step.Count? || step.Reset? || step.Job?)
    ensures Balanced(watch, After(watch, s, step))
  {
    hide Traffic, TrafficOf, InBatches, TableAfterJob;
    assert InFlight(After(watch, s, step), watch) == InFlight(s, watch);
  }

  lemma TakesDownload(watch: string, s: State, user: string)
    requires Enabled(s, SwapWrite(user)) && Sound(s)
    ensures var t := After(watch, s, SwapWrite(user));
      Plus(Live(t, watch), InCollection(t.collecting, watch)) == Plus(Live(s, watch), InCollection(s.collecting, watch))
  {
    hide TrafficOf, InBatches;
    assert InHand(s.collecting.value.held, watch) == Zero();
  }

  lemma TakesUpload(watch: string, s: State)
    requires Enabled(s, SwapRead) && Sound(s)
    ensures var t := After(watch, s, SwapRead);
      Plus(Live(t, watch), InCollection(t.collecting, watch)) == Plus(Live(s, watch), InCollection(s.collecting, watch))
  {
    hide TrafficOf, InBatches, RowsOf;
    var (user, down) := s.collecting.value.held.value;
    RowsAdded(s.collecting.value.rows, user, down, s.counters[s.users[user]].bytes.up, watch);
  }

  lemma CollectingBalances(watch: string, s: State, step: Step)
    requires Enabled(s, step) && Sound(s) && Balanced(watch, s) && (step.Begin? || step.SwapWrite? || step.SwapRead? || step.End?)
    ensures Balanced(watch, After(watch, s, step))
  {
    hide TrafficOf, InBatches, RowsOf, Live;
    var t := After(watch, s, step);
    match step
    case Begin =>
      NoTraffic(watch);
      assert Live(t, watch) == Live(s, watch) by { SameCounters(s, t, watch); }
    case SwapWrite(user) =>
      TakesDownload(watch, s, user);
    case SwapRead =>
      TakesUpload(watch, s);
    case End =>
      assert Live(t, watch) == Live(s, watch) by { SameCounters(s, t, watch); }
      BatchAdded(s.batches, s.collecting.value.rows, watch);
  }

  lemma SameCounters(s: State, t: State, user: string)
    requires s.counters == t.counters && s.users == t.users
    ensures Live(s, user) == Live(t, user)
  {
  }

  lemma NoTraffic(user: string)
    ensures TrafficOf([], user) == Zero()
  {
  }

  lemma SavingBalances(watch: string, s: State, step: Step)
    requires Enabled(s, step) && Balanced(watch, s) && (step.Persist? || step.FailToPersist?)
    ensures Balanced(watch, After(watch, s, step))
  {
    hide Traffic, TrafficOf, InBatches, PaidTable;
    BatchRemoved(s.batches, step.batch, watch);
    assert Live(After(watch, s, step), watch) == Live(s, watch);
  }

  lemma StepKeepsBalance(watch: string, s: State, step: Step)
    requires Enabled(s, step) && Sound(s) && Balanced(watch, s)
    ensures Balanced(watch, After(watch, s, step))
  {
    hide Balanced, Enabled, Sound, After;
    if step.Connect? || step.Count? || step.Reset? || step.Job? {
      CountingBalances(watch, s, step);
    } else if step.Persist? || step.FailToPersist? {
      SavingBalances(watch, s, step);
    } else {
      CollectingBalances(watch, s, step);
    }
  }

  lemma SaveCredits(watch: string, start: Table, s: State, batch: nat)
    requires Enabled(s, Persist(batch)) && Credits(watch, start, s)
    ensures Credits(watch, start, After(watch, s, Persist(batch)))
  {
    hide Traffic;
    var t := After(watch, s, Persist(batch));
    forall id | id in start
      ensures t.clients[id] == Paid(s.clients[id], s.batches[batch])
    {
    }
  }

  lemma JobCredits(watch: string, start: Table, s: State, dt: int)
    requires Credits(watch, start, s)
    ensures Credits(watch, start, After(watch, s, Job(dt)))
  {
    hide TableAfterJob;
    forall id | id in s.clients {
      JobMeetsLimits(s.clients, dt, id);
    }
  }

  lemma StepKeepsCredits(watch: string, start: Table, s: State, step: Step)
    requires Enabled(s, step) && Credits(watch, start, s)
    ensures Credits(watch, start, After(watch, s, step))
  {
    if step.Job? {
      hide Credits;
      JobCredits(watch, start, s, step.dt);
    } else if step.Persist? {
      hide Credits;
      SaveCredits(watch, start, s, step.batch);
    } else {
      hide Live, TrafficOf, RowsOf;
    }
  }

  // ---------------------------------------------------------------- whole runs

  lemma {:induction false} RunKeepsBooks(watch: string, start: Table, s: State, steps: seq<Step>)
    requires Runs(watch, s, steps) && Sound(s) && Balanced(watch, s) && Credits(watch, start, s)
    ensures var f := Final(watch, s, steps); Sound(f) && Balanced(watch, f) && Credits(watch, start, f)
    decreases |steps|
  {
    hide Sound, Balanced, Credits, Enabled, After;
    if steps != [] {
      StepKeepsSound(watch, s, steps[0]);
      StepKeepsBalance(watch, s, steps[0]);
      StepKeepsCredits(watch, start, s, steps[0]);
      RunKeepsBooks(watch, start, After(watch, s, steps[0]), steps[1..]);
    }
  }

  /** In every run: the bytes counted for a client are those in its counter, those collected and not yet saved,
      those saved and those dropped; and every row of that name has grown by those saved. */
  lemma BytesConserved(watch: string, start: Table, steps: seq<Step>)
    requires Runs(watch, Initial(start), steps)
    ensures var f := Final(watch, Initial(start), steps);
      && f.ledger.counted == Plus(Plus(Plus(Live(f, watch), InFlight(f, watch)), f.ledger.persisted), f.ledger.dropped)
      && Credits(watch, start, f)
  {
    hide Runs, Final, Sound, Credits, Live, InFlight;
    BooksOpen(watch, Initial(start));
    RunKeepsBooks(watch, start, Initial(start), steps);
  }

  lemma BooksOpen(watch: string, s: State)
    requires s.counters == [] && s.users == map[] && s.collecting.None? && s.batches == []
    requires s.ledger.counted == s.ledger.persisted == s.ledger.dropped == Zero()
    ensures Sound(s) && Balanced(watch, s) && Credits(watch, s.clients, s)
  {
    hide Plus;
    assert Live(s, watch) == InBatches(s.batches, watch) == InCollection(s.collecting, watch) == Zero();
    NothingAdded();
  }

  lemma NothingAdded()
    ensures Plus(Zero(), Zero()) == Zero()
  {
    AddedNothing(Zero(), Zero());
  }

  lemma AddedNothing(a: Bytes, b: Bytes)
    requires b.up == 0 && b.down == 0
    ensures Plus(a, b) == a
  {
  }

  /** No connection counts on a counter that the tracker has forgotten. */
  ghost predicate NoOrphans(s: State) {
    forall k :: 0 <= k < |s.counters| ==> s.counters[k].user in s.users && s.users[s.counters[k].user] == k
  }

  /** Bytes are dropped only if a save fails or the tracker is reset. */
  lemma {:induction false} DroppedOnlyByFailure(watch: string, s: State, steps: seq<Step>)
    requires Runs(watch, s, steps) && Sound(s) && NoOrphans(s)
    requires forall k :: 0 <= k < |steps| ==> !steps[k].FailToPersist? && !steps[k].Reset?
    ensures Final(watch, s, steps).ledger.dropped == s.ledger.dropped
    decreases |steps|
  {
    if steps != [] {
      var t := After(watch, s, steps[0]);
      StepKeepsSound(watch, s, steps[0]);
      NoOrphansKept(watch, s, steps[0]);
      DroppedOnlyByFailure(watch, t, steps[1..]);
    }
  }

  lemma NoOrphansKept(watch: string, s: State, step: Step)
    requires Enabled(s, step) && Sound(s) && NoOrphans(s) && !step.FailToPersist? && !step.Reset?
    ensures NoOrphans(After(watch, s, step)) && After(watch, s, step).ledger.dropped == s.ledger.dropped
  {
  }

  // ---------------------------------------------------------------- rows of one name

  function Named(t: Table, user: string): set<nat> {
    set id | id in t && t[id].name == user
  }

  function Total(c: Client, direction: bool): int {
    if direction then c.up + c.totalUp else c.down + c.totalDown
  }

  ghost function Pick(ids: set<nat>): (id: nat)
    requires ids != {}
    ensures id in ids
  {
    var id :| id in ids; id
  }

  /** What the rows have stored, the current period and the earlier ones together. */
  ghost function Stored(t: Table, ids: set<nat>, direction: bool): int
    requires ids <= t.Keys
    decreases |ids|
  {
    if ids == {} then 0
    else
      var id := Pick(ids);
      Total(t[id], direction) + Stored(t, ids - {id}, direction)
  }

  lemma {:induction false} StoredGrows(t: Table, u: Table, ids: set<nat>, direction: bool, n: int)
    requires ids <= t.Keys && ids <= u.Keys
    requires forall id :: id in ids ==> Total(u[id], direction) == Total(t[id], direction) + n
    ensures Stored(u, ids, direction) == Stored(t, ids, direction) + |ids| * n
    decreases |ids|
  {
    if ids != {} {
      var id := Pick(ids);
      StoredGrows(t, u, ids - {id}, direction, n);
      assert |ids| == |ids - {id}| + 1;
      OneMore(|ids - {id}|, n);
    }
  }

  lemma OneMore(k: nat, n: int)
    ensures (k + 1) * n == k * n + n
  {
  }

  lemma OnceOrNothing(k: nat, n: nat)
    ensures k * n == n <==> k == 1 || n == 0
  {
    if k != 1 && n != 0 {
      if k == 0 {
        assert k * n == 0;
      } else {
        assert k * n == n + (k - 1) * n && (k - 1) * n >= n;
      }
    }
  }

  /** The stored totals account for all bytes that are not elsewhere. */
  ghost predicate TotalsBalance(watch: string, start: Table, f: State, direction: bool)
    requires Named(start, watch) <= f.clients.Keys
  {
    var ids := Named(start, watch);
    f.ledger.counted.Of(direction) ==
      Live(f, watch).Of(direction) + InFlight(f, watch).Of(direction) + f.ledger.dropped.Of(direction) +
      Stored(f.clients, ids, direction) - Stored(start, ids, direction)
  }

  /** The stored totals account for all bytes exactly when one row bears the name or nothing was saved for it:
      names are not unique, and a save credits every row of the name, or none. */
  lemma StoredTotalsExact(watch: string, start: Table, steps: seq<Step>, direction: bool)
    requires Runs(watch, Initial(start), steps)
    ensures var f := Final(watch, Initial(start), steps);
      && Named(start, watch) <= f.clients.Keys
      && (TotalsBalance(watch, start, f, direction) <==>
          |Named(start, watch)| == 1 || f.ledger.persisted.Of(direction) == 0)
  {
    hide Enabled, After, InFlight, Live;
    BytesConserved(watch, start, steps);
    var f := Final(watch, Initial(start), steps);
    var ids := Named(start, watch);
    var n := f.ledger.persisted.Of(direction);
    StoredGrows(start, f.clients, ids, direction, n);
    OnceOrNothing(|ids|, n);
  }

  ghost predicate BalancesInRun(watch: string, start: Table, steps: seq<Step>, direction: bool) {
    Runs(watch, Initial(start), steps) ==>
      var f := Final(watch, Initial(start), steps);
      Named(start, watch) <= f.clients.Keys && TotalsBalance(watch, start, f, direction)
  }

  /** One byte, counted, collected and saved. */
  function OneByte(watch: string, direction: bool): seq<Step> {
    [Connect(watch), Count(0, direction, 1), Begin, SwapWrite(watch), SwapRead, End, Persist(0)]
  }

  /** The only counter is the user's and holds `b`. */
  predicate Holding(s: State, user: string, b: Bytes) {
    s.counters == [Counter(user, b)] && s.users == map[user := 0] && s.collecting.None? && s.batches == []
  }

  lemma OneConnected(watch: string, s: State)
    requires watch != "" && s.counters == [] && s.users == map[] && s.collecting.None? && s.batches == []
    ensures Enabled(s, Connect(watch)) && Holding(After(watch, s, Connect(watch)), watch, Zero())
    ensures After(watch, s, Connect(watch)).ledger == s.ledger
  {
    hide Zero;
  }

  lemma OneCounted(watch: string, s: State, b: Bytes, direction: bool, n: nat)
    requires Holding(s, watch, b)
    ensures Enabled(s, Count(0, direction, n))
    ensures var t := After(watch, s, Count(0, direction, n));
      Holding(t, watch, Plus(b, One(direction, n))) && t.ledger.persisted == s.ledger.persisted
  {
    hide Plus, One;
  }

  lemma OneCollected(watch: string, s: State, b: Bytes)
    requires Holding(s, watch, b)
    ensures Enabled(s, Begin)
    ensures var s1 := After(watch, s, Begin);
      && Enabled(s1, SwapWrite(watch))
      && var s2 := After(watch, s1, SwapWrite(watch));
      && Enabled(s2, SwapRead)
      && var s3 := After(watch, s2, SwapRead);
      && Enabled(s3, End)
      && After(watch, s3, End).batches == [[] + RowsOf(watch, b.down, b.up)]
      && After(watch, s3, End).ledger == s.ledger
  {
    hide RowsOf;
    var s1 := After(watch, s, Begin);
    assert s.users.Keys == {watch};
    assert s1.collecting == Some(Collection({watch}, None, []));
    var s2 := After(watch, s1, SwapWrite(watch));
    assert s2.collecting == Some(Collection({watch}, Some((watch, b.down)), []));
    assert s2.counters == [Counter(watch, b.(down := 0))];
    assert {watch} - {watch} == {};
    var s3 := After(watch, s2, SwapRead);
    assert s3.collecting == Some(Collection({}, None, [] + RowsOf(watch, b.down, b.up)));
  }

  lemma OneIsFirst(direction: bool, n: nat)
    ensures Plus(Zero(), One(direction, n)) == One(direction, n)
  {
  }

  lemma OneSaved(watch: string, s: State, b: Bytes, direction: bool)
    requires s.batches == [[] + RowsOf(watch, b.down, b.up)] && b == One(direction, 1)
    ensures Enabled(s, Persist(0))
    ensures After(watch, s, Persist(0)).ledger.persisted.Of(direction) == s.ledger.persisted.Of(direction) + 1
  {
    hide TrafficOf, PaidTable, RowsOf;
    RowsAdded([], watch, b.down, b.up, watch);
    NoTraffic(watch);
  }

  /** The state before a save that holds one byte of the name. */
  lemma OneByteCollected(watch: string, s: State, direction: bool)
    requires watch != "" && s.counters == [] && s.users == map[] && s.collecting.None? && s.batches == []
    ensures var steps := OneByte(watch, direction);
      && Runs(watch, s, steps)
      && Final(watch, s, steps).ledger.persisted.Of(direction) == s.ledger.persisted.Of(direction) + 1
  {
    hide After, Enabled, RowsOf, One, Plus, Zero;
    OneConnected(watch, s);
    var s1 := After(watch, s, Connect(watch));
    OneCounted(watch, s1, Zero(), direction, 1);
    OneIsFirst(direction, 1);
    var s2 := After(watch, s1, Count(0, direction, 1));
    OneCollected(watch, s2, One(direction, 1));
    var s3 := After(watch, s2, Begin);
    var s4 := After(watch, s3, SwapWrite(watch));
    var s5 := After(watch, s4, SwapRead);
    var s6 := After(watch, s5, End);
    OneSaved(watch, s6, One(direction, 1), direction);
    StepsTaken(watch, s, s1, s2, s3, s4, s5, s6, direction);
  }

  lemma StepsTaken(watch: string, s: State, s1: State, s2: State, s3: State, s4: State, s5: State, s6: State, direction: bool)
    requires Enabled(s, Connect(watch)) && s1 == After(watch, s, Connect(watch))
    requires Enabled(s1, Count(0, direction, 1)) && s2 == After(watch, s1, Count(0, direction, 1))
    requires Enabled(s2, Begin) && s3 == After(watch, s2, Begin)
    requires Enabled(s3, SwapWrite(watch)) && s4 == After(watch, s3, SwapWrite(watch))
    requires Enabled(s4, SwapRead) && s5 == After(watch, s4, SwapRead)
    requires Enabled(s5, End) && s6 == After(watch, s5, End)
    requires Enabled(s6, Persist(0))
    ensures var steps := OneByte(watch, direction);
      Runs(watch, s, steps) && Final(watch, s, steps) == After(watch, s6, Persist(0))
  {
    hide After, Enabled;
    var s7 := After(watch, s6, Persist(0));
    RunOn(watch, s6, Persist(0), []);
    RunOn(watch, s5, End, [Persist(0)]);
    RunOn(watch, s4, SwapRead, [End, Persist(0)]);
    RunOn(watch, s3, SwapWrite(watch), [SwapRead, End, Persist(0)]);
    RunOn(watch, s2, Begin, [SwapWrite(watch), SwapRead, End, Persist(0)]);
    RunOn(watch, s1, Count(0, direction, 1), [Begin, SwapWrite(watch), SwapRead, End, Persist(0)]);
    RunOn(watch, s, Connect(watch), [Count(0, direction, 1), Begin, SwapWrite(watch), SwapRead, End, Persist(0)]);
  }

  lemma RunOn(watch: string, s: State, step: Step, rest: seq<Step>)
    requires Enabled(s, step) && Runs(watch, After(watch, s, step), rest)
    ensures Runs(watch, s, [step] + rest) && Final(watch, s, [step] + rest) == Final(watch, After(watch, s, step), rest)
  {
    hide After, Enabled;
    assert ([step] + rest)[1..] == rest;
  }

  /** The stored totals account for all bytes in every run exactly when one row bears the name. */
  lemma TotalsBalanceForUniqueNames(watch: string, start: Table, direction: bool)
    requires watch != ""
    ensures (forall steps :: BalancesInRun(watch, start, steps, direction)) <==> |Named(start, watch)| == 1
  {
    hide Runs, Final, TotalsBalance, Named, OneByte, Plus;
    forall steps | Runs(watch, Initial(start), steps) {
      StoredTotalsExact(watch, start, steps, direction);
    }
    var steps := OneByte(watch, direction);
    OneByteCollected(watch, Initial(start), direction);
    StoredTotalsExact(watch, start, steps, direction);
    assert BalancesInRun(watch, start, steps, direction) <==> |Named(start, watch)| == 1;
  }
}
