/**
 The life of a client: delayed start, periodic reset and depletion (service/client.go:469-614). Times and
 volumes are unbounded integers; the source's are 64-bit.
 */
module Clients {
  import opened UintArrays
  import opened Wrappers

  /** The settings of a client for each protocol, as the text of their column and as what it holds under each key. */
  datatype Settings = Settings(text: string, parts: map<string, string>)

  datatype Client = Client(
    enable: bool, name: string, config: Settings, inbounds: seq<nat>,
    volume: int, expiry: int, up: int, down: int,
    delayStart: bool, autoReset: bool, resetDays: int, nextReset: int, totalUp: int, totalDown: int)

  type Table = map<nat, Client>

  /** An audit row of the job. */
  datatype Change = Change(actor: string, action: string, name: string)

  const DAY := 86400

  // ---------------------------------------------------------------- one row

  predicate StartsOnce(c: Client) {
    c.enable && c.delayStart && !c.autoReset && c.up + c.down > 0
  }

  predicate StartsPeriod(c: Client) {
    c.enable && c.delayStart && c.autoReset && c.up + c.down > 0
  }

  predicate RollsOver(c: Client, dt: int) {
    !c.delayStart && c.autoReset && c.nextReset < dt
  }

  predicate Depleted(c: Client, dt: int) {
    c.enable && ((c.volume > 0 && c.up + c.down > c.volume) || (c.expiry > 0 && c.expiry < dt))
  }

  function Reset(c: Client, dt: int): Client {
    if StartsOnce(c) then c.(expiry := dt + c.resetDays * DAY, delayStart := false)
    else if StartsPeriod(c) then c.(nextReset := dt + c.resetDays * DAY, delayStart := false)
    else if RollsOver(c, dt) then
      c.(nextReset := dt + c.resetDays * DAY, totalUp := c.totalUp + c.up, totalDown := c.totalDown + c.down,
         up := 0, down := 0, enable := true)
    else c
  }

  function AfterJob(c: Client, dt: int): Client {
    var r := Reset(c, dt);
    if Depleted(r, dt) then r.(enable := false) else r
  }

  /** The job restarts the inbounds of this client. */
  predicate Reported(c: Client, dt: int) {
    (RollsOver(c, dt) && !c.enable) || Depleted(Reset(c, dt), dt)
  }

  // ---------------------------------------------------------------- the table

  function ResetTable(t: Table, dt: int): (r: Table)
    ensures r.Keys == t.Keys
  {
    map id | id in t :: Reset(t[id], dt)
  }

  function TableAfterJob(t: Table, dt: int): (r: Table)
    ensures r.Keys == t.Keys
  {
    map id | id in t :: AfterJob(t[id], dt)
  }

  /** The inbounds to restart. */
  ghost predicate ReportedInbound(t: Table, dt: int, inbound: nat) {
    exists id :: id in t && Reported(t[id], dt) && inbound in t[id].inbounds
  }

  /** The same inbounds as a set. */
  ghost function JobReport(t: Table, dt: int): (report: set<nat>)
    ensures forall i :: i in report <==> ReportedInbound(t, dt, i)
  {
    set id, i | id in t && Reported(t[id], dt) && i in t[id].inbounds :: i
  }

  /** Some row is written. */
  ghost predicate Touched(t: Table, dt: int) {
    exists id :: id in t && (StartsOnce(t[id]) || StartsPeriod(t[id]) || RollsOver(t[id], dt))
  }

  /** One audit row for each of the rows, in their order. */
  function AuditRows(t: Table, actor: string, action: string, rows: seq<nat>): (r: seq<Change>)
    requires forall id :: id in rows ==> id in t
    ensures |r| == |rows|
  {
    seq(|rows|, k requires 0 <= k < |rows| => Change(actor, action, t[rows[k]].name))
  }

  /** The rows `rows` of `t` reset on top of `start`. */
  ghost predicate ResetRows(t: Table, dt: int, start: Table, rows: seq<nat>, r: Table) {
    && (forall id :: id in r <==> id in start || id in rows)
    && (forall id :: id in r ==> id in t && r[id] == Reset(t[id], dt))
  }

  /** `ResetClients`: three queries on the table as it stands, then one write of all rows found. */
  method ResetClients(t: Table, dt: int)
    returns (r: Table, inboundIds: seq<nat>, changes: seq<Change>, changed: bool, ghost audited: seq<nat>)
    ensures r == ResetTable(t, dt)
    ensures forall x :: x in inboundIds <==>
      exists id :: id in t && RollsOver(t[id], dt) && !t[id].enable && x in t[id].inbounds
    ensures NoDuplicates(audited) && forall id :: id in audited <==> id in t && (StartsOnce(t[id]) || StartsPeriod(t[id]))
    ensures changes == AuditRows(t, "ResetJob", "reset", audited)
    ensures changed <==> Touched(t, dt)
  {
    hide Reset, RollsOver, StartsOnce, StartsPeriod, ResetRows, Touched, AuditRows, NoDuplicates;
    var rows1 := KeysOf(set id | id in t && StartsOnce(t[id]));
    var rows2 := KeysOf(set id | id in t && StartsPeriod(t[id]));
    var rows3 := KeysOf(set id | id in t && RollsOver(t[id], dt));
    NothingReset(t, dt);
    var first, second, allClients: Table;
    first, changes := StartGroup(t, dt, rows1, false, map[], []);
    NothingMore(t, dt, map[], rows1, first);
    second, changes := StartGroup(t, dt, rows2, true, first, changes);
    NothingMore(t, dt, first, rows2, second);
    audited := rows1 + rows2;
    DisjointRows(t, rows1, rows2);
    AuditJoined(t, rows1, rows2);
    allClients, inboundIds := RollOver(t, dt, rows3, second);
    r := t + allClients;
    AllGroupsReset(t, dt, rows1, rows2, rows3, first, second, allClients);
    changed := allClients.Keys != {} || changes != [];
  }

  lemma NothingReset(t: Table, dt: int)
    ensures ResetRows(t, dt, map[], [], map[])
  {
  }

  lemma NothingMore(t: Table, dt: int, start: Table, rows: seq<nat>, r: Table)
    requires ResetRows(t, dt, start, rows, r)
    ensures ResetRows(t, dt, r, [], r)
  {
    hide Reset;
  }

  lemma AuditJoined(t: Table, rows1: seq<nat>, rows2: seq<nat>)
    requires forall id :: id in rows1 + rows2 ==> id in t
    ensures forall id :: id in rows1 || id in rows2 ==> id in t
    ensures AuditRows(t, "ResetJob", "reset", rows1 + rows2) ==
      [] + AuditRows(t, "ResetJob", "reset", rows1) + AuditRows(t, "ResetJob", "reset", rows2)
    ensures AuditRows(t, "ResetJob", "reset", rows1 + rows2) != [] <==> rows1 + rows2 != []
  {
  }

  lemma DisjointRows(t: Table, rows1: seq<nat>, rows2: seq<nat>)
    requires NoDuplicates(rows1) && NoDuplicates(rows2)
    requires forall id :: id in rows1 ==> id in t && StartsOnce(t[id])
    requires forall id :: id in rows2 ==> id in t && StartsPeriod(t[id])
    ensures NoDuplicates(rows1 + rows2)
  {
    forall i, j | 0 <= i < |rows1| && 0 <= j < |rows2|
      ensures rows1[i] != rows2[j]
    {
      assert rows1[i] in rows1 && rows2[j] in rows2;
    }
  }

  /** The three groups together are the whole reset, and one of them has a row exactly when a row is written. */
  lemma AllGroupsReset(t: Table, dt: int, rows1: seq<nat>, rows2: seq<nat>, rows3: seq<nat>,
                       first: Table, second: Table, all: Table)
    requires forall id :: id in rows1 <==> id in t && StartsOnce(t[id])
    requires forall id :: id in rows2 <==> id in t && StartsPeriod(t[id])
    requires forall id :: id in rows3 <==> id in t && RollsOver(t[id], dt)
    requires ResetRows(t, dt, map[], rows1, first) && ResetRows(t, dt, first, rows2, second) && ResetRows(t, dt, second, rows3, all)
    ensures t + all == ResetTable(t, dt)
    ensures Touched(t, dt) <==> all.Keys != {} || rows1 + rows2 != []
  {
    hide Reset, RollsOver, StartsOnce, StartsPeriod;
    forall id | id in t
      ensures (t + all)[id] == Reset(t[id], dt)
    {
      if id !in all {
        NoGroupNoReset(t[id], dt);
      }
    }
    TouchedIffRows(t, dt, all.Keys);
    if rows1 + rows2 != [] {
      assert (rows1 + rows2)[0] in rows1 + rows2;
      assert (rows1 + rows2)[0] in all;
    }
  }

  lemma NoGroupNoReset(c: Client, dt: int)
    requires !StartsOnce(c) && !StartsPeriod(c) && !RollsOver(c, dt)
    ensures Reset(c, dt) == c
  {
  }

  lemma TouchedIffRows(t: Table, dt: int, rows: set<nat>)
    requires forall id :: id in rows <==> id in t && (StartsOnce(t[id]) || StartsPeriod(t[id]) || RollsOver(t[id], dt))
    ensures Touched(t, dt) <==> rows != {}
  {
    if rows != {} {
      var id :| id in rows;
    }
  }

  /** One of the first two groups of `ResetClients`: the delayed start ends and sets the expiry or, for a
      periodic client, the next reset. */
  method StartGroup(t: Table, dt: int, rows: seq<nat>, periodic: bool, start: Table, audit: seq<Change>)
    returns (allClients: Table, changes: seq<Change>)
    requires forall id :: id in rows ==> id in t && if periodic then StartsPeriod(t[id]) else StartsOnce(t[id])
    requires ResetRows(t, dt, start, [], start)
    ensures ResetRows(t, dt, start, rows, allClients)
    ensures changes == audit + AuditRows(t, "ResetJob", "reset", rows)
  {
    allClients, changes := start, audit;
    for i := 0 to |rows|
      invariant ResetRows(t, dt, start, rows[..i], allClients)
      invariant changes == audit + AuditRows(t, "ResetJob", "reset", rows)[..i]
    {
      assert rows[i] in rows;
      var client := t[rows[i]];
      var due := dt + client.resetDays * DAY;
      client := if periodic then client.(nextReset := due, delayStart := false) else client.(expiry := due, delayStart := false);
      changes := changes + [Change("ResetJob", "reset", client.name)];
      allClients := allClients[rows[i] := client];
    }
    assert rows[..|rows|] == rows;
  }

  /** The third group of `ResetClients`. */
  method RollOver(t: Table, dt: int, rows: seq<nat>, start: Table) returns (allClients: Table, inboundIds: seq<nat>)
    requires forall id :: id in rows ==> id in t && RollsOver(t[id], dt)
    requires ResetRows(t, dt, start, [], start)
    ensures ResetRows(t, dt, start, rows, allClients)
    ensures forall x :: x in inboundIds <==> exists id :: id in rows && !t[id].enable && x in t[id].inbounds
  {
    allClients, inboundIds := start, [];
    for i := 0 to |rows|
      invariant ResetRows(t, dt, start, rows[..i], allClients)
      invariant forall x :: x in inboundIds <==> exists id :: id in rows[..i] && !t[id].enable && x in t[id].inbounds
    {
      assert rows[i] in rows;
      var client := t[rows[i]];
      assert rows[..i + 1] == rows[..i] + [rows[i]];
      client := client.(nextReset := dt + client.resetDays * DAY,
                        totalUp := client.totalUp + client.up, totalDown := client.totalDown + client.down,
                        up := 0, down := 0);
      if !client.enable {
        client := client.(enable := true);
        inboundIds := UnionUintArray(inboundIds, client.inbounds);
      }
      allClients := allClients[rows[i] := client];
    }
    assert rows[..|rows|] == rows;
  }

  /** `DepleteClients` up to its commit; None stands for a database error, after which nothing is written. */
  method DepleteClients(t: Table, dt: int, reliable: bool)
    returns (done: Option<Table>, inboundIds: seq<nat>, changes: seq<Change>, changed: bool,
             ghost restarted: seq<nat>, ghost disabled: seq<nat>)
    ensures reliable ==> done.Some?
    ensures done.Some? ==> done.value == TableAfterJob(t, dt)
    ensures done.Some? ==> forall x :: x in inboundIds <==> ReportedInbound(t, dt, x)
    ensures NoDuplicates(restarted) && forall id :: id in restarted <==> id in t && (StartsOnce(t[id]) || StartsPeriod(t[id]))
    ensures NoDuplicates(disabled) && forall id :: id in disabled <==> id in t && Depleted(Reset(t[id], dt), dt)
    ensures changes == AuditRows(t, "ResetJob", "reset", restarted) + AuditRows(t, "DepleteJob", "disable", disabled)
    ensures changed <==> Touched(t, dt) || disabled != []
  {
    hide Reset, Depleted, RollsOver, StartsOnce, StartsPeriod, Touched, ReportedInbound;
    var r, ids, audit, resetChanged, audited := ResetClients(t, dt);
    restarted := audited;
    var rows := KeysOf(set id | id in r && Depleted(r[id], dt));
    disabled := rows;
    SameInbounds(t, dt);
    inboundIds, changes := Disable(r, rows, ids, audit);
    assert AuditRows(r, "DepleteJob", "disable", rows) == AuditRows(t, "DepleteJob", "disable", rows);
    var depleted := map id | id in r :: if Depleted(r[id], dt) then r[id].(enable := false) else r[id];
    assert depleted == TableAfterJob(t, dt);
    ReportedBySteps(t, dt, ids, rows, inboundIds);
    changed := resetChanged || changes != [];
    if restarted != [] {
      RestartedTouched(t, dt, restarted);
    }
    var fails: bool := *;
    done := if fails && !reliable then None else Some(depleted);
  }

  /** The loop of `DepleteClients` over the rows it disables. */
  method Disable(r: Table, rows: seq<nat>, ids: seq<nat>, audit: seq<Change>) returns (inboundIds: seq<nat>, changes: seq<Change>)
    requires forall id :: id in rows ==> id in r
    ensures changes == audit + AuditRows(r, "DepleteJob", "disable", rows)
    ensures forall x :: x in inboundIds <==> x in ids || exists id :: id in rows && x in r[id].inbounds
  {
    inboundIds, changes := ids, audit;
    for i := 0 to |rows|
      invariant changes == audit + AuditRows(r, "DepleteJob", "disable", rows)[..i]
      invariant forall x :: x in inboundIds <==> x in ids || exists id :: id in rows[..i] && x in r[id].inbounds
    {
      assert rows[i] in rows && rows[..i + 1] == rows[..i] + [rows[i]];
      inboundIds := UnionUintArray(inboundIds, r[rows[i]].inbounds);
      changes := changes + [Change("DepleteJob", "disable", r[rows[i]].name)];
    }
    assert rows[..|rows|] == rows;
  }

  lemma SameInbounds(t: Table, dt: int)
    ensures forall id :: id in t ==> ResetTable(t, dt)[id].inbounds == t[id].inbounds && ResetTable(t, dt)[id].name == t[id].name
  {
    forall id | id in t
      ensures Reset(t[id], dt).inbounds == t[id].inbounds && Reset(t[id], dt).name == t[id].name
    {
      ResetKeepsInbounds(t[id], dt);
    }
  }

  lemma ReportedBySteps(t: Table, dt: int, ids: seq<nat>, rows: seq<nat>, inboundIds: seq<nat>)
    requires forall x :: x in ids <==> exists id :: id in t && RollsOver(t[id], dt) && !t[id].enable && x in t[id].inbounds
    requires forall id :: id in rows <==> id in t && Depleted(Reset(t[id], dt), dt)
    requires forall x :: x in inboundIds <==> x in ids || exists id :: id in t && id in rows && x in t[id].inbounds
    ensures forall x :: x in inboundIds <==> ReportedInbound(t, dt, x)
  {
    hide Reset, Depleted, RollsOver;
  }

  lemma RestartedTouched(t: Table, dt: int, rows: seq<nat>)
    requires rows != [] && forall id :: id in rows ==> id in t && (StartsOnce(t[id]) || StartsPeriod(t[id]))
    ensures Touched(t, dt)
  {
    assert rows[0] in rows;
  }

  lemma ResetKeepsInbounds(c: Client, dt: int)
    ensures Reset(c, dt).inbounds == c.inbounds && Reset(c, dt).name == c.name
  {
  }

  // ---------------------------------------------------------------- what the job guarantees

  /** No row is in two of the three groups. */
  lemma GroupsDisjoint(c: Client, dt: int)
    ensures !(StartsOnce(c) && StartsPeriod(c)) && !(StartsOnce(c) && RollsOver(c, dt)) && !(StartsPeriod(c) && RollsOver(c, dt))
  {
  }

  /** After the job no enabled client is over its volume or past its expiry, and no byte is lost: what leaves
      the period counters is in the totals. */
  lemma JobMeetsLimits(t: Table, dt: int, id: nat)
    requires id in t
    ensures !Depleted(TableAfterJob(t, dt)[id], dt)
    ensures var a, b := t[id], TableAfterJob(t, dt)[id];
      && b.up + b.totalUp == a.up + a.totalUp && b.down + b.totalDown == a.down + a.totalDown
      && b.name == a.name && b.config == a.config && b.inbounds == a.inbounds && b.volume == a.volume
  {
  }

  /** A client whose delayed start ends at `dt` runs for as many days of 86 400 seconds as its period says: with no
      limit of volume the job disables it exactly after that. */
  lemma StartedClientExpires(c: Client, dt: int, now: int)
    requires c.enable && c.delayStart && !c.autoReset && c.up + c.down > 0 && c.volume <= 0
    requires dt >= 0 && c.resetDays > 0
    ensures var r := Reset(c, dt);
      && !r.delayStart && r == c.(delayStart := false, expiry := r.expiry)
      && (Depleted(r, now) <==> now > dt + c.resetDays * 86_400)
  {
  }

  /** A periodic client rolls over next exactly after that time, whether its period begins with a delayed start or with
      a rollover; a rollover moves the counters into the totals and enables the client. */
  lemma PeriodicClientRollsOver(c: Client, dt: int, now: int)
    requires c.autoReset && ((c.enable && c.delayStart && c.up + c.down > 0) || (!c.delayStart && c.nextReset < dt))
    ensures var r := Reset(c, dt);
      && (RollsOver(r, now) <==> now > dt + c.resetDays * 86_400)
      && (if c.delayStart then r == c.(delayStart := false, nextReset := r.nextReset)
          else r == c.(enable := true, up := 0, down := 0, totalUp := c.totalUp + c.up, totalDown := c.totalDown + c.down,
                       nextReset := r.nextReset))
  {
  }

  /** Any other client is left alone by the reset, and the job disables exactly the clients that are over a limit. */
  lemma JobOnRow(t: Table, dt: int, id: nat)
    requires id in t
    ensures var c, a := t[id], TableAfterJob(t, dt)[id];
      && (!c.autoReset && !(c.enable && c.delayStart && c.up + c.down > 0) ==>
          a == c.(enable := c.enable && (c.volume <= 0 || c.up + c.down <= c.volume) && (c.expiry <= 0 || c.expiry >= dt)))
      && (!c.enable && a.enable ==> c.autoReset && !c.delayStart && c.nextReset < dt)
  {
  }

  /** The enabled clients of an inbound. */
  function EnabledUsers(t: Table, inbound: nat): set<nat> {
    set id | id in t && t[id].enable && inbound in t[id].inbounds
  }

  /** An inbound whose enabled clients changed is reported. */
  lemma ChangedInboundsReported(t: Table, dt: int, inbound: nat)
    requires EnabledUsers(TableAfterJob(t, dt), inbound) != EnabledUsers(t, inbound)
    ensures ReportedInbound(t, dt, inbound)
  {
    var before, after := EnabledUsers(t, inbound), EnabledUsers(TableAfterJob(t, dt), inbound);
    var id :| id in (before - after) + (after - before);
    assert Reported(t[id], dt);
  }

  // ---------------------------------------------------------------- a second run at the same time

  /** The job has nothing to do on the row: it leaves it as it is, reports nothing and writes no audit row. */
  predicate Quiet(c: Client, dt: int) {
    AfterJob(c, dt) == c && !Reported(c, dt) && !StartsOnce(c) && !StartsPeriod(c)
  }

  /** A negative reset period puts the next reset into the past: the row rolls over again, which shows when it
      still counted bytes of a delayed start or when its expiry has passed as well. */
  predicate Restless(c: Client, dt: int) {
    c.autoReset && c.resetDays < 0 &&
    (StartsPeriod(c) || (RollsOver(c, dt) && 0 < c.expiry < dt))
  }

  lemma SecondRunOnRow(c: Client, dt: int)
    ensures Quiet(AfterJob(c, dt), dt) <==> !Restless(c, dt)
  {
  }

  /** A client that expired in the past and is reset a day backwards is enabled and disabled by every run. */
  lemma RestlessForEver(c: Client, dt: int)
    requires dt > 1 && c.autoReset && !c.delayStart && c.resetDays == -1 && c.nextReset < dt && c.expiry == 1
    ensures Reported(AfterJob(c, dt), dt) && Reported(AfterJob(AfterJob(c, dt), dt), dt)
  {
    var d := AfterJob(c, dt);
    assert RollsOver(d, dt) && !d.enable;
  }

  /** A second run at the same time changes no row, reports no inbound and writes no audit row, exactly when
      no row has a negative reset period that makes it restless. */
  lemma SecondRunQuiet(t: Table, dt: int)
    ensures (forall id :: id in t ==> Quiet(TableAfterJob(t, dt)[id], dt)) <==> (forall id :: id in t ==> !Restless(t[id], dt))
    ensures (forall id :: id in t ==> t[id].resetDays >= 0) ==>
              && TableAfterJob(TableAfterJob(t, dt), dt) == TableAfterJob(t, dt)
              && forall x :: !ReportedInbound(TableAfterJob(t, dt), dt, x)
  {
    hide AfterJob, Quiet, Restless;
    forall id | id in t
      ensures Quiet(TableAfterJob(t, dt)[id], dt) <==> !Restless(t[id], dt)
    {
      SecondRunOnRow(t[id], dt);
    }
    forall id | id in t && t[id].resetDays >= 0
      ensures !Restless(t[id], dt)
    {
      NonNegativePeriodRests(t[id], dt);
    }
    if forall id :: id in t ==> t[id].resetDays >= 0 {
      forall id | id in t
        ensures AfterJob(TableAfterJob(t, dt)[id], dt) == TableAfterJob(t, dt)[id] && !Reported(TableAfterJob(t, dt)[id], dt)
      {
        QuietMeans(TableAfterJob(t, dt)[id], dt);
      }
    }
  }

  lemma NonNegativePeriodRests(c: Client, dt: int)
    requires c.resetDays >= 0
    ensures !Restless(c, dt)
  {
  }

  lemma QuietMeans(c: Client, dt: int)
    requires Quiet(c, dt)
    ensures AfterJob(c, dt) == c && !Reported(c, dt)
  {
  }
}
