/**
 Saving and applying (service/config.go:107-423, cronjob/depleteJob.go): a database transaction and a process
 restart that must succeed or fail together. Every step may fail.
 */
module ConfigService {
  import opened ClientSaves
  import opened Clients
  import opened Coherence
  import opened EgressTables
  import opened PanelState
  import opened PanelSteps
  import opened Prefixes
  import opened Rendering
  import opened RunningCore
  import opened UintArrays
  import opened WireGuardModel
  import opened Wrappers
  import EgressStore
  import InboundSaves
  import OutboundSaves
  import TrafficStore

  class Panel {
    const core: Core
    const inboundService: InboundSaves.InboundService
    var db: Database

    constructor (core: Core, db: Database)
      requires core.Valid() && Keyed(db)
      ensures Valid() && this.core == core && this.db == db
    {
      this.core, this.db := core, db;
      inboundService := new InboundSaves.InboundService(core);
    }

    ghost predicate Valid()
      reads this, core
    {
      core.Valid() && Keyed(db) && inboundService.core == core
    }

    ghost function Now(): State
      reads this, core
    {
      State(db, Running(core))
    }

    method RestartCoreWithRaw(config: Config) returns (r: Restart)
      requires core.Valid()
      modifies core
      ensures core.Valid() && (core.reliable ==> r == Restarted)
      ensures r == Restarted ==> core.Runs(config)
      ensures r == Busy ==> core.isRunning == old(core.isRunning) && core.instance == old(core.instance)
      ensures r == StopFailed || r == StartFailed ==> !core.isRunning
    {
      var inProgress: bool := *;
      if inProgress && !core.reliable {
        return Busy;
      }
      if core.isRunning {
        var stopped := core.Stop();
        if !stopped {
          return StopFailed;
        }
      }
      var started := core.Start(config);
      r := if started then Restarted else StartFailed;
    }

    /** Starts a stopped core with the committed database, unless a start is under way or failed shortly before. */
    method StartCore()
      requires Valid()
      modifies core
      ensures Valid() && StartStep(core.reliable, old(Now()), Now())
    {
      hide Keyed, Shows, ShowsOutbounds;
      var declines: bool := *;
      if core.isRunning || (declines && !core.reliable) {
        return;
      }
      KeyedSound(db);
      var config := GetConfig(db, core.reliable);
      if config.Some? {
        var started := core.Start(config.value);
      }
    }

    /** `restoreRuntimeState` */
    method RestoreRuntimeState(config: Config, wasRunning: bool) returns (r: Restart)
      requires core.Valid()
      modifies core
      ensures core.Valid() && (core.reliable ==> r == Restarted)
      ensures r == Restarted ==> if wasRunning then core.Runs(config) else !core.isRunning
      ensures r == StopFailed || r == StartFailed ==> !core.isRunning
      ensures r == Busy ==> wasRunning && core.isRunning == old(core.isRunning) && core.instance == old(core.instance)
    {
      if wasRunning {
        r := RestartCoreWithRaw(config);
        return;
      }
      r := Restarted;
      if core.isRunning {
        var stopped := core.Stop();
        r := if stopped then Restarted else StopFailed;
      }
    }

    // -------------------------------------------------------------- clients, inbounds, outbounds

    /** The clients are saved, then the reported inbounds restarted. */
    method StageClients(request: ClientRequest) returns (staged: Option<Database>)
      requires Valid()
      modifies core
      ensures Valid() && (Running(core).Some? <==> old(Running(core)).Some?)
      ensures StagedRows(core.reliable, old(Now()), ForClients(request), staged, Running(core))
    {
      hide Keyed, ClientSaves.Saved, InboundSaves.Restarted, CanSave, Report;
      assert CanSave(db, ForClients(request)) <==> Possible(ClientRows(db), request) by {
        CanSaveClients(db, request);
      }
      KeyedSound(db);
      var saved := Save(ClientRows(db), request, core.reliable);
      if saved.None? {
        return None;
      }
      var (rows, inboundIds) := saved.value;
      if inboundIds != [] {
        var ok := inboundService.RestartInbounds(rows.table, db.inbounds, inboundIds);
        if !ok {
          return None;
        }
      }
      staged := Some(db.(clients := rows.table, nextClient := rows.next));
      ClientsKeyed(db, rows);
      if inboundIds == [] && core.isRunning {
        NothingRestarted(core.instance.value.inbounds, rows.table, db.inbounds);
      }
    }

    method StageInbounds(request: InboundSaves.InboundRequest) returns (staged: Option<Database>)
      requires Valid()
      modifies core
      ensures Valid() && (Running(core).Some? <==> old(Running(core)).Some?)
      ensures StagedRows(core.reliable, old(Now()), ForInbounds(request), staged, Running(core))
    {
      hide Keyed, InboundSaves.Saved, InboundSaves.Patched;
      KeyedSound(db);
      var saved := inboundService.Save(InboundRows(db), request);
      if saved.None? {
        return None;
      }
      var rows := saved.value;
      staged := Some(db.(clients := rows.clients, inbounds := rows.inbounds, nextInbound := rows.next));
      InboundsKeyed(db, request);
    }

    method StageOutbounds(request: OutboundSaves.OutboundRequest) returns (staged: Option<Database>)
      requires Valid()
      modifies core
      ensures Valid() && (Running(core).Some? <==> old(Running(core)).Some?)
      ensures StagedRows(core.reliable, old(Now()), ForOutbounds(request), staged, Running(core))
    {
      hide Keyed, OutboundSaves.Written, OutboundSaves.Patched;
      KeyedTables(db);
      var tx := new EgressStore.Store.Begin(db.tables, core.reliable);
      var ok := OutboundSaves.Save(core, tx, request);
      if !ok {
        return None;
      }
      staged := Some(db.(tables := tx.tables));
      OutboundsKeyed(db, request, tx.tables);
    }

    method Stage(request: SaveRequest) returns (staged: Option<Database>)
      requires Valid()
      modifies core
      ensures Valid() && (Running(core).Some? <==> old(Running(core)).Some?)
      ensures StagedRows(core.reliable, old(Now()), request, staged, Running(core))
    {
      hide Keyed, Written, Follows, CanSave;
      match request {
        case ForClients(c) => staged := StageClients(c);
        case ForInbounds(r) => staged := StageInbounds(r);
        case ForOutbounds(r) => staged := StageOutbounds(r);
      }
    }

    /** `SaveWithApply` for clients, inbounds and outbounds. The core is changed inside the transaction; on any
        error after its beginning a running core is restarted with the configuration rendered before. */
    method SaveWithApply(request: SaveRequest, entry: Audit, apply: bool) returns (refused: Option<Refusal>)
      requires Valid()
      modifies this`db, core
      ensures Valid() && RowsStep(core.reliable, old(Now()), request, entry, apply, refused, Now())
    {
      hide Keyed, Written, Follows, CanSave, ShowsAll;
      KeyedSound(db);
      var previous: Option<Config> := None;
      if core.isRunning {
        previous := GetConfig(db, core.reliable);
        if previous.None? {
          return Some(Untouched);
        }
      }
      var fails: bool := *;
      if fails && !core.reliable {
        return Some(Untouched);
      }
      var staged := Stage(request);
      fails := *;
      if staged.None? || (fails && !core.reliable) {
        if previous.None? {
          return Some(Untouched);
        }
        var restart := RestartCoreWithRaw(previous.value);
        return Some(if restart == Restarted then PutBack else Astray(restart));
      }
      db := staged.value.(audit := staged.value.audit + [entry]);
      AuditKeyed(staged.value, db);
      AuditWritten(old(db), request, staged.value, entry);
      if apply && !core.isRunning {
        StartCore();
      }
      refused := None;
    }

    // -------------------------------------------------------------- base configuration and endpoints

    /** The common end of the two saves that stage a whole configuration: validate it, write the audit row, restart
        the core with it, commit. */
    method Publish(staged: Database, oldConfig: Config, entry: Audit, apply: bool) returns (refused: Option<Refusal>)
      requires Valid() && Keyed(staged) && ShowsAll(oldConfig, db)
      requires staged.audit == db.audit
      modifies this`db, core
      ensures Valid() && PublishStep(old(Now()), staged, entry, apply, refused, Now())
      ensures core.reliable ==> refused.None?
    {
      hide Keyed, Shows, ShowsOutbounds;
      KeyedSound(staged);
      var config := GetConfig(staged, core.reliable);
      if config.None? {
        return Some(Untouched);
      }
      var wasRunning := core.isRunning;
      var valid := core.ValidateConfig(config.value);
      var fails: bool := *;
      if !valid || (fails && !core.reliable) {
        return Some(Untouched);
      }
      if apply {
        var applied := RestartCoreWithRaw(config.value);
        if applied != Restarted {
          var restart := RestoreRuntimeState(oldConfig, wasRunning);
          return Some(if restart == Restarted then PutBack else Astray(restart));
        }
      }
      fails := *;
      if fails && !core.reliable {
        if !apply {
          return Some(Untouched);
        }
        var restart := RestoreRuntimeState(oldConfig, wasRunning);
        return Some(if restart == Restarted then PutBack else Astray(restart));
      }
      db := staged.(audit := staged.audit + [entry]);
      AuditKeyed(staged, db);
      refused := None;
    }

    /** `saveConfigWithApply`: without `apply` the running core keeps the old base configuration. */
    method SaveConfigWithApply(base: string, entry: Audit, apply: bool) returns (refused: Option<Refusal>)
      requires Valid()
      modifies this`db, core
      ensures Valid() && BaseStep(core.reliable, old(Now()), base, entry, apply, refused, Now())
    {
      hide Keyed, ShowsAll, Shows, ShowsOutbounds;
      KeyedSound(db);
      var oldConfig := GetConfig(db, core.reliable);
      var fails: bool := *;
      if oldConfig.None? || (fails && !core.reliable) {
        return Some(Untouched);
      }
      BaseKeyed(db, base);
      refused := Publish(db.(base := base), oldConfig.value, entry, apply);
    }

    /** `saveEndpointWithApply` */
    method SaveEndpointWithApply(lib: Library, request: EndpointRequest, entry: Audit, apply: bool) returns (refused: Option<Refusal>)
      requires Valid() && Lawful(lib)
      modifies this`db, core
      ensures Valid() && EndpointStep(lib, core.reliable, old(Now()), request, entry, apply, refused, Now())
    {
      hide Keyed, ShowsAll, Shows, ShowsOutbounds, Lawful, EgressStore.Keyed, EgressStore.Possible, EgressStore.Performed;
      KeyedSound(db);
      KeyedTables(db);
      var oldConfig := GetConfig(db, core.reliable);
      if oldConfig.None? {
        return Some(Untouched);
      }
      var tx := new EgressStore.Store.Begin(db.tables, core.reliable);
      match request {
        case PutEndpoint(act, id, payload) =>
          var saved := tx.SaveEndpoint(lib, act, id, payload);
          if saved.None? {
            return Some(Untouched);
          }
        case DropEndpoint(tag) =>
          var ok := tx.DeleteEndpoint(tag);
          assert EgressStore.StepOf(lib, core.reliable, db.tables, EgressRequest(request), ok, tx.tables);
          if !ok {
            return Some(Untouched);
          }
      }
      EndpointsKeyed(lib, db, request, tx.tables);
      refused := Publish(db.(tables := tx.tables), oldConfig.value, entry, apply);
    }

    // -------------------------------------------------------------- the depletion job

    /** `DepleteJob.Run`: false stands for an error it only logs. A failing job leaves the rows as they are; a
        failing restart leaves the core behind the committed rows. */
    method Deplete(dt: int) returns (done: bool, ok: bool)
      requires Valid()
      modifies this`db, core
      ensures Valid() && JobStep(core.reliable, old(Now()), dt, done, ok, Now())
    {
      hide Keyed, TableAfterJob, ReportedInbound, InboundSaves.Restarted, Touched;
      hide StartsOnce, StartsPeriod, Depleted, Clients.Reset;
      var result, inboundIds, changes, changed, started, stopped := DepleteClients(db.clients, dt, core.reliable);
      if result.None? {
        return false, false;
      }
      done := true;
      KeyedSound(db);
      db := db.(clients := result.value, audit := db.audit + AuditOf(changes));
      JobKeyed(old(db), dt, db);
      assert JobAudit(old(db).clients, dt, AuditOf(changes));
      assert db.audit[|old(db).audit|..] == AuditOf(changes);
      ok := true;
      if inboundIds != [] {
        ok := inboundService.RestartInbounds(db.clients, db.inbounds, inboundIds);
      }
      assert Members(inboundIds) == JobReport(old(db).clients, dt);
      if inboundIds == [] && core.isRunning {
        NothingRestarted(core.instance.value.inbounds, db.clients, db.inbounds);
      }
    }

    /** The traffic collected is stored with the clients of its names. */
    method Persist(rows: seq<TrafficStore.Row>) returns (done: bool)
      requires Valid()
      modifies this`db
      ensures Valid() && PersistStep(core.reliable, old(Now()), rows, done, Now())
    {
      hide Keyed, TrafficStore.PaidTable;
      var stats := new TrafficStore.StatsService(db.clients, core.reliable);
      done := stats.SaveStats(rows, true);
      if done {
        db := db.(clients := stats.clients);
        PersistStepKeeps(core.reliable, old(Now()), rows, done, Now());
      }
    }

    // -------------------------------------------------------------- whole runs

    /** Any run of saves, depletion jobs, starts and stops. `states` has the database and the core before, between
        and after the actions; as long as the actions keep the agreement, a running core has exactly the inbounds,
        users and outbounds of the committed database. */
    method Run(lib: Library, actions: seq<Action>) returns (agreed: bool, outcomes: seq<Outcome>, ghost states: seq<State>)
      requires Valid() && Lawful(lib) && Orderly(db) && Agrees(Now())
      modifies this`db, core
      ensures Valid() && IsRun(lib, core.reliable, states, actions, outcomes)
      ensures states[0] == old(Now()) && states[|actions|] == Now()
      ensures agreed <==> forall k :: 0 <= k < |actions| ==> Kept(states[k].db, actions[k], outcomes[k])
      ensures forall k :: 0 <= k <= |actions| && (forall j :: 0 <= j < k ==> Kept(states[j].db, actions[j], outcomes[j])) ==>
        Agrees(states[k])
      ensures agreed ==> Orderly(db) && Agrees(Now())
      ensures Exact(old(db).tables) && (forall k :: 0 <= k < |actions| ==> AsksFresh(actions[k])) ==> Exact(db.tables)
    {
      hide Keyed, Orderly, Kept, Lawful, StepOf, Agrees, Exact, AsksFresh, EgressStore.Keyed, Renames;
      agreed, outcomes, states := true, [], [Now()];
      for k := 0 to |actions|
        invariant Valid() && |states| == k + 1 && |outcomes| == k && states[0] == old(Now()) && states[k] == Now()
        invariant forall j :: 0 <= j <= k ==> Keyed(states[j].db)
        invariant forall j :: 0 <= j < k ==> StepOf(lib, core.reliable, states[j], actions[j], outcomes[j], states[j + 1])
        invariant agreed <==> forall j :: 0 <= j < k ==> Kept(states[j].db, actions[j], outcomes[j])
      {
        var before := db;
        var outcome := Perform(lib, actions[k]);
        agreed := agreed && Kept(before, actions[k], outcome);
        outcomes, states := outcomes + [outcome], states + [Now()];
      }
      forall k | 0 <= k <= |actions| && forall j :: 0 <= j < k ==> Kept(states[j].db, actions[j], outcomes[j])
        ensures Orderly(states[k].db) && Agrees(states[k])
      {
        RunAgrees(lib, core.reliable, states, actions, outcomes, k);
      }
      if Exact(old(db).tables) && forall k :: 0 <= k < |actions| ==> AsksFresh(actions[k]) {
        forall j | 0 <= j < |actions|
          ensures EgressStore.Keyed(states[j].db.tables) && !Renames(states[j], actions[j], outcomes[j], states[j + 1])
        {
          KeyedTables(states[j].db);
          FreshRenamesNothing(states[j], actions[j], outcomes[j], states[j + 1]);
        }
        RunKeepsRules(lib, core.reliable, states, actions, outcomes, |actions|);
      }
    }

    method Perform(lib: Library, action: Action) returns (outcome: Outcome)
      requires Valid() && Lawful(lib)
      modifies this`db, core
      ensures Valid() && StepOf(lib, core.reliable, old(Now()), action, outcome, Now())
    {
      hide Keyed, Lawful, RowsStep, BaseStep, EndpointStep, JobStep, PersistStep, StartStep;
      match action {
        case SaveRows(request, entry, apply) =>
          var refused := SaveWithApply(request, entry, apply);
          outcome := Saving(refused);
        case SaveBase(base, entry, apply) =>
          var refused := SaveConfigWithApply(base, entry, apply);
          outcome := Saving(refused);
        case SaveEndpoints(request, entry, apply) =>
          var refused := SaveEndpointWithApply(lib, request, entry, apply);
          outcome := Saving(refused);
        case Job(dt) =>
          var done, ok := Deplete(dt);
          outcome := Working(done, ok);
        case Persist(rows) =>
          var done := Persist(rows);
          outcome := Working(done, done);
        case Start =>
          StartCore();
          outcome := Switching;
        case Stop =>
          var stopped := core.Stop();
          outcome := Switching;
      }
    }
  }

  /** What the core runs, if it runs. */
  ghost function Running(core: Core): Option<Config>
    reads core
  {
    if core.isRunning then core.instance else None
  }

  /** Rows staged in a transaction, with the core changed along. */
  ghost predicate StagedRows(reliable: bool, s: State, request: SaveRequest, staged: Option<Database>, running: Option<Config>) {
    && (s.running.None? ==> running.None?)
    && (staged.Some? ==> CanSave(s.db, request) && Written(s.db, request, staged.value) && Keyed(staged.value))
    && (staged.Some? && s.running.Some? ==> running.Some? && Follows(s.db, request, s.running.value, running.value))
    && (reliable ==> (staged.Some? <==> CanSave(s.db, request)))
  }

  lemma NothingRestarted(running: Listeners, t: Table, inbounds: InboundTable)
    ensures InboundSaves.Restarted(running, running, t, inbounds, Members([]))
  {
  }

  lemma CanSaveClients(db: Database, request: ClientRequest)
    ensures CanSave(db, ForClients(request)) <==> Possible(ClientRows(db), request)
  {
  }

  lemma ClientsKeyed(db: Database, rows: Rows)
    requires Keyed(db) && ClientSaves.IdsBelowNext(rows)
    ensures Keyed(db.(clients := rows.table, nextClient := rows.next))
  {
  }

  lemma InboundsKeyed(db: Database, request: InboundSaves.InboundRequest)
    requires Keyed(db) && InboundSaves.Sound(InboundSaves.Saved(InboundRows(db), request))
    ensures var rows := InboundSaves.Saved(InboundRows(db), request);
      Keyed(db.(clients := rows.clients, inbounds := rows.inbounds, nextInbound := rows.next))
  {
    var rows := InboundSaves.Saved(InboundRows(db), request);
    assert rows.clients.Keys == db.clients.Keys;
  }

  lemma OutboundsKeyed(db: Database, request: OutboundSaves.OutboundRequest, tables: Tables)
    requires Keyed(db) && TagsUnique(tables) && EgressTables.IdsBelowNext(tables)
    requires tables.outbounds == OutboundSaves.Written(db.tables, request)
    requires !request.DropOutbound? ==> OutboundSaves.Trimmed(request.outbound).tag != ""
    ensures Keyed(db.(tables := tables)) && OutboundTagsUnique(tables.outbounds)
  {
  }

  lemma AuditWritten(db: Database, request: SaveRequest, after: Database, entry: Audit)
    requires Written(db, request, after)
    ensures after.audit == db.audit && after.(audit := after.audit + [entry]).(audit := db.audit) == after
  {
  }

  lemma BaseKeyed(db: Database, base: string)
    requires Keyed(db)
    ensures Keyed(db.(base := base))
  {
  }

  lemma EndpointsKeyed(lib: Library, db: Database, request: EndpointRequest, tables: Tables)
    requires Keyed(db) && EgressStore.Keyed(tables) && EgressStore.Performed(lib, db.tables, EgressRequest(request), tables)
    ensures Keyed(db.(tables := tables))
  {
    hide TagsUnique, EgressTables.IdsBelowNext, EgressStore.Performed;
    EndpointsLeaveOutbounds(lib, db.tables, request, tables);
  }

  lemma JobKeyed(db: Database, dt: int, after: Database)
    requires Keyed(db) && after == db.(clients := TableAfterJob(db.clients, dt), audit := after.audit)
    ensures Keyed(after)
  {
    hide TableAfterJob, TagsUnique, EgressTables.IdsBelowNext, InboundTagsUnique, OutboundSaves.TagsGiven;
  }

  /** A core in agreement with the database has the inbounds and outbounds of any full rendering of it. */
  lemma AgreesWithRendering(s: State, c: Config)
    requires s.running.Some? && Agrees(s) && ShowsAll(c, s.db)
    ensures s.running.value.inbounds == c.inbounds && s.running.value.outbounds == c.outbounds
  {
    var running := s.running.value;
    RenderingUnique(c.(inbounds := running.inbounds, outbounds := running.outbounds), c, s.db);
  }
}
