/**
 What each action on the panel may do to the database and the running core, and what follows for whole runs
 (service/config.go:107-423, cronjob/depleteJob.go).
 */
module PanelSteps {
  import opened Clients
  import opened Coherence
  import opened EgressTables
  import opened PanelState
  import opened Rendering
  import opened Strings
  import opened UintArrays
  import opened WireGuardModel
  import opened Wrappers
  import ClientSaves
  import EgressStore
  import InboundSaves
  import OutboundSaves
  import StoredEndpoints
  import TrafficStore

  /** How `restartCoreWithRaw` ends. Busy means that another start is under way; nothing is done then. */
  datatype Restart = Restarted | StopFailed | StartFailed | Busy

  /** What became of the running core when a save returns an error: it was not touched, it is back in its previous
      state, or putting it back did not work. */
  datatype Refusal = Untouched | PutBack | Astray(restart: Restart)

  datatype EndpointRequest =
    | PutEndpoint(act: Act, id: nat, payload: Row)
    | DropEndpoint(tag: string)

  datatype Action =
    | SaveRows(request: SaveRequest, entry: Audit, apply: bool)
    | SaveBase(base: string, entry: Audit, apply: bool)
    | SaveEndpoints(endpoint: EndpointRequest, entry: Audit, apply: bool)
    | Job(dt: int)
    | Persist(rows: seq<TrafficStore.Row>)
    | Start
    | Stop

  /** What an action reports: a save its refusal, if any; a job, or the storing of traffic, whether it committed and
      whether it could restart the inbounds. */
  datatype Outcome = Saving(refused: Option<Refusal>) | Working(done: bool, ok: bool) | Switching

  function EgressRequest(request: EndpointRequest): EgressStore.Request {
    match request
    case PutEndpoint(act, id, payload) => EgressStore.SaveEndpoint(act, id, payload)
    case DropEndpoint(tag) => EgressStore.DeleteEndpoint(tag)
  }

  // ---------------------------------------------------------------- one step

  /** After an error the database is as it was, and the core untouched, or put back as stopped or as running the
      full rendering, or, if that failed, stopped, unless another start was under way. */
  ghost predicate Refused(s: State, refusal: Refusal, t: State) {
    && t.db == s.db
    && match refusal
       case Untouched => t.running == s.running
       case PutBack => if s.running.Some? then t.running.Some? && ShowsAll(t.running.value, s.db) else t.running.None?
       case Astray(restart) => restart != Restarted && (restart != Busy ==> t.running.None?)
  }

  /** A save of clients, inbounds or outbounds: one audit row, the rows of the request, and a running core changed
      just as far. */
  ghost predicate RowsStep(reliable: bool, s: State, request: SaveRequest, entry: Audit, apply: bool, refused: Option<Refusal>, t: State) {
    && (refused.Some? ==>
        && Refused(s, refused.value, t) && (s.running.None? ==> refused.value.Untouched?)
        && (reliable ==> !CanSave(s.db, request) && !refused.value.Astray?))
    && (refused.None? ==>
        && CanSave(s.db, request)
        && t.db.audit == s.db.audit + [entry] && Written(s.db, request, t.db.(audit := s.db.audit))
        && (s.running.Some? ==> t.running.Some? && Follows(s.db, request, s.running.value, t.running.value))
        && (s.running.None? && t.running.Some? ==> apply && ShowsAll(t.running.value, t.db))
        && (reliable && apply ==> t.running.Some?))
  }

  /** A save that stages a whole configuration. */
  ghost predicate PublishStep(s: State, staged: Database, entry: Audit, apply: bool, refused: Option<Refusal>, t: State) {
    && (refused.Some? ==> Refused(s, refused.value, t))
    && (refused.None? ==>
        && t.db == staged.(audit := s.db.audit + [entry])
        && (apply ==> t.running.Some? && ShowsAll(t.running.value, t.db)))
    && (!apply ==> t.running == s.running)
  }

  ghost predicate BaseStep(reliable: bool, s: State, base: string, entry: Audit, apply: bool, refused: Option<Refusal>, t: State) {
    PublishStep(s, s.db.(base := base), entry, apply, refused, t) && (reliable ==> refused.None?)
  }

  ghost predicate EndpointStep(lib: Library, reliable: bool, s: State, request: EndpointRequest, entry: Audit, apply: bool,
                               refused: Option<Refusal>, t: State) {
    && PublishStep(s, s.db.(tables := t.db.tables), entry, apply, refused, t)
    && (refused.None? ==> EgressStore.Performed(lib, s.db.tables, EgressRequest(request), t.db.tables))
    && (reliable && refused.Some? ==> refused.value.Untouched?)
    && (reliable || refused.None? ==>
        (refused.None? <==> EgressStore.Possible(lib, s.db.tables, EgressRequest(request))))
  }

  /** One audit row for each client whose delayed start ended, then one for each that was disabled. */
  ghost predicate JobAudit(t: Table, dt: int, added: seq<Audit>) {
    exists restarted: seq<nat>, disabled: seq<nat> ::
      && NoDuplicates(restarted) && NoDuplicates(disabled)
      && (forall id :: id in restarted <==> id in t && (StartsOnce(t[id]) || StartsPeriod(t[id])))
      && (forall id :: id in disabled <==> id in t && Depleted(Clients.Reset(t[id], dt), dt))
      && added == AuditOf(AuditRows(t, "ResetJob", "reset", restarted) + AuditRows(t, "DepleteJob", "disable", disabled))
  }

  function AuditOf(changes: seq<Change>): seq<Audit> {
    seq(|changes|, k requires 0 <= k < |changes| => Audit(changes[k].actor, "clients", changes[k].action))
  }

  /** The depletion job commits its rows, then restarts the inbounds it reports. */
  ghost predicate JobStep(reliable: bool, s: State, dt: int, done: bool, ok: bool, t: State) {
    && (!done ==> t == s)
    && (done ==>
        && t.db == s.db.(clients := TableAfterJob(s.db.clients, dt), audit := t.db.audit)
        && |s.db.audit| <= |t.db.audit| && t.db.audit[..|s.db.audit|] == s.db.audit
        && JobAudit(s.db.clients, dt, t.db.audit[|s.db.audit|..])
        && (s.running.Some? <==> t.running.Some?)
        && (ok && s.running.Some? ==> FollowsJob(s.db, dt, s.running.value, t.running.value)))
    && (reliable ==> done && ok)
  }

  /** The reported inbounds are restarted with the new rows, nothing else is touched. */
  ghost predicate FollowsJob(db: Database, dt: int, before: Config, after: Config) {
    && after == before.(inbounds := after.inbounds)
    && InboundSaves.Restarted(before.inbounds, after.inbounds, TableAfterJob(db.clients, dt), db.inbounds, JobReport(db.clients, dt))
  }

  /** Collected traffic is added to the clients of its names; the core is not touched. */
  ghost predicate PersistStep(reliable: bool, s: State, rows: seq<TrafficStore.Row>, done: bool, t: State) {
    && t.running == s.running && (reliable ==> done)
    && t.db == if done then s.db.(clients := TrafficStore.PaidTable(s.db.clients, rows)) else s.db
  }

  ghost predicate StartStep(reliable: bool, s: State, t: State) {
    && t.db == s.db && (s.running.Some? ==> t == s)
    && (s.running.None? && t.running.Some? ==> ShowsAll(t.running.value, t.db))
    && (reliable ==> t.running.Some?)
  }

  ghost predicate StepOf(lib: Library, reliable: bool, s: State, action: Action, outcome: Outcome, t: State) {
    match action
    case SaveRows(request, entry, apply) => outcome.Saving? && RowsStep(reliable, s, request, entry, apply, outcome.refused, t)
    case SaveBase(base, entry, apply) => outcome.Saving? && BaseStep(reliable, s, base, entry, apply, outcome.refused, t)
    case SaveEndpoints(request, entry, apply) =>
      outcome.Saving? && EndpointStep(lib, reliable, s, request, entry, apply, outcome.refused, t)
    case Job(dt) => outcome.Working? && JobStep(reliable, s, dt, outcome.done, outcome.ok, t)
    case Persist(rows) => outcome.Working? && PersistStep(reliable, s, rows, outcome.done, t)
    case Start => outcome.Switching? && StartStep(reliable, s, t)
    case Stop => outcome.Switching? && t == State(s.db, None)
  }

  // ---------------------------------------------------------------- whole runs

  /** Each action starts where the one before it ended; primary keys and unique tags hold throughout. */
  ghost predicate IsRun(lib: Library, reliable: bool, states: seq<State>, actions: seq<Action>, outcomes: seq<Outcome>) {
    && |states| == |actions| + 1 && |outcomes| == |actions|
    && (forall k :: 0 <= k <= |actions| ==> Keyed(states[k].db))
    && forall k :: 0 <= k < |actions| ==> StepOf(lib, reliable, states[k], actions[k], outcomes[k], states[k + 1])
  }

  /** The action keeps the core in agreement: a proper request, no other start under way while the core is put
      back, and a job that could restart the inbounds it reported. */
  predicate Kept(db: Database, action: Action, outcome: Outcome) {
    match action
    case SaveRows(request, _, _) => Proper(db, request) && outcome != Saving(Some(Astray(Busy)))
    case SaveBase(_, _, _) => outcome != Saving(Some(Astray(Busy)))
    case SaveEndpoints(_, _, _) => outcome != Saving(Some(Astray(Busy)))
    case Job(_) => outcome.Working? && outcome.done ==> outcome.ok
    case _ => true
  }

  /** Base configuration and endpoints are not saved without being applied. */
  predicate Applies(action: Action) {
    (action.SaveBase? || action.SaveEndpoints?) ==> action.apply
  }

  /** A committed save of clients leaves the rows that were submitted, under their identifiers, and all others as they
      were. */
  lemma CommittedClients(reliable: bool, s: State, request: ClientSaves.ClientRequest, entry: Audit, apply: bool, t: State)
    requires RowsStep(reliable, s, ForClients(request), entry, apply, None, t) && Keyed(s.db)
    ensures ClientSaves.RowsWritten(ClientRows(s.db), request, t.db.clients)
    ensures request.EditClient? ==> t.db.clients == s.db.clients[request.entry.id := request.entry.client]
    ensures t.db.inbounds == s.db.inbounds && t.db.tables == s.db.tables && t.db.base == s.db.base
  {
    hide ClientSaves.RowsWritten, Follows;
    KeyedSound(s.db);
    ClientSaves.SavedRows(ClientRows(s.db), request);
  }

  /** So does a committed save of an inbound. */
  lemma CommittedInbounds(reliable: bool, s: State, request: InboundSaves.InboundRequest, entry: Audit, apply: bool, t: State)
    requires RowsStep(reliable, s, ForInbounds(request), entry, apply, None, t) && Keyed(s.db)
    ensures InboundSaves.RowsWritten(InboundRows(s.db), request, InboundRows(t.db))
    ensures t.db.tables == s.db.tables && t.db.base == s.db.base
  {
    hide InboundSaves.RowsWritten, Follows;
    KeyedSound(s.db);
    InboundSaves.SavedRows(InboundRows(s.db), request);
  }

  /** And a committed save of an outbound: one row, under its trimmed tag. */
  lemma CommittedOutbounds(reliable: bool, s: State, request: OutboundSaves.OutboundRequest, entry: Audit, apply: bool, t: State)
    requires RowsStep(reliable, s, ForOutbounds(request), entry, apply, None, t) && Keyed(s.db)
    ensures t.db.clients == s.db.clients && t.db.inbounds == s.db.inbounds && t.db.base == s.db.base
    ensures t.db.tables.endpoints == s.db.tables.endpoints && t.db.tables.managed == s.db.tables.managed
    ensures !request.DropOutbound? ==>
      var key := if request.id == 0 then s.db.tables.nextOutbound else request.id;
      var after := t.db.tables.outbounds;
      && key in after && after == s.db.tables.outbounds[key := after[key]]
      && after[key].kind == request.outbound.kind && after[key].tag == Trim(request.outbound.tag)
      && after[key].options == request.outbound.options
    ensures request.DropOutbound? ==>
      forall j :: (j in t.db.tables.outbounds <==> j in s.db.tables.outbounds && s.db.tables.outbounds[j].tag != request.tag) &&
        (j in t.db.tables.outbounds ==> t.db.tables.outbounds[j] == s.db.tables.outbounds[j])
  {
    hide Trim, Follows, Keyed;
  }

  /** A successful save on a running core that agrees keeps the agreement exactly if the request fits. */
  lemma SaveStepExact(reliable: bool, s: State, request: SaveRequest, entry: Audit, apply: bool, t: State)
    requires RowsStep(reliable, s, request, entry, apply, None, t) && s.running.Some?
    requires Keyed(s.db) && Keyed(t.db) && Orderly(s.db) && Agrees(s)
    ensures Agrees(t) <==> Fits(s.db, request)
  {
    hide Fits, CanSave, Written, Shows, ShowsOutbounds, Orderly, Keyed, Follows;
    var staged := t.db.(audit := s.db.audit);
    AuditKeyed(t.db, staged);
    SaveExact(s.db, request, s.running.value, staged, t.running.value);
  }

  lemma AuditKeyed(db: Database, after: Database)
    requires Keyed(db) && after == db.(audit := after.audit)
    ensures Keyed(after) && (Orderly(db) <==> Orderly(after))
  {
  }

  lemma JobStepKeeps(reliable: bool, s: State, dt: int, ok: bool, t: State)
    requires JobStep(reliable, s, dt, true, ok, t) && Keyed(s.db) && Orderly(s.db) && Agrees(s)
    ensures Orderly(t.db) && (ok ==> Agrees(t))
  {
    hide TableAfterJob, JobReport, Shows, ShowsOutbounds, JobAudit, InboundSaves.Restarted, Keyed, Covered;
    forall id | id in s.db.clients
      ensures t.db.clients[id].inbounds == s.db.clients[id].inbounds
    {
      JobMeetsLimits(s.db.clients, dt, id);
    }
    KeyedSound(s.db);
    if ok && s.running.Some? {
      var before, after := s.running.value.inbounds, t.running.value.inbounds;
      JobCovered(s.db.clients, dt, s.db.inbounds);
      RestartExact(before, after, s.db.clients, t.db.clients, s.db.inbounds, JobReport(s.db.clients, dt));
    }
  }

  /** Traffic counters are not shown by any inbound. */
  lemma PersistStepKeeps(reliable: bool, s: State, rows: seq<TrafficStore.Row>, done: bool, t: State)
    requires PersistStep(reliable, s, rows, done, t)
    ensures Keyed(s.db) ==> Keyed(t.db)
    ensures Orderly(s.db) ==> Orderly(t.db)
    ensures Agrees(s) ==> Agrees(t)
    ensures AgreesFully(s) ==> AgreesFully(t)
  {
    hide ShowsOutbounds, Rendered, TrafficStore.Traffic;
    forall i, inbound
      ensures Rendered(s.db.clients, i, inbound) == Rendered(t.db.clients, i, inbound)
    {
      hide SeenOf;
      PersistKeepsUsers(s.db.clients, t.db.clients, rows, i, inbound);
    }
  }

  lemma PersistKeepsUsers(t: Table, u: Table, rows: seq<TrafficStore.Row>, i: nat, inbound: Inbound)
    requires u == t || u == TrafficStore.PaidTable(t, rows)
    ensures Rendered(t, i, inbound) == Rendered(u, i, inbound)
  {
    hide TrafficStore.Traffic, Shown, Bears;
    RenderedTellsUsers(t, u, i, inbound);
  }

  lemma StepKeepsAgreement(lib: Library, reliable: bool, s: State, action: Action, outcome: Outcome, t: State)
    requires StepOf(lib, reliable, s, action, outcome, t) && Kept(s.db, action, outcome)
    requires Keyed(s.db) && Keyed(t.db) && Orderly(s.db) && Agrees(s)
    ensures Orderly(t.db) && Agrees(t)
  {
    hide Fits, Legal, CanSave, Written, Shows, ShowsOutbounds, EgressStore.Possible, EgressStore.Performed, JobAudit, TableAfterJob;
    hide FollowsJob, Follows, PersistStep, Keyed;
    match action
    case SaveRows(request, entry, apply) =>
      if outcome.refused.None? {
        WrittenKeepsOrder(s.db, request, t.db.(audit := s.db.audit));
        if s.running.Some? {
          SaveStepExact(reliable, s, request, entry, apply, t);
        }
      }
    case SaveEndpoints(request, entry, apply) =>
      if outcome.refused.None? {
        EndpointsLeaveOutbounds(lib, s.db.tables, request, t.db.tables);
      }
    case Job(dt) =>
      if outcome.done {
        JobStepKeeps(reliable, s, dt, outcome.ok, t);
      }
    case Persist(rows) =>
      PersistStepKeeps(reliable, s, rows, outcome.done, t);
    case _ =>
  }

  lemma EndpointsLeaveOutbounds(lib: Library, t: Tables, request: EndpointRequest, u: Tables)
    requires EgressStore.Performed(lib, t, EgressRequest(request), u)
    ensures u.outbounds == t.outbounds
  {
    hide EgressStore.StoredForm, Synced;
  }

  lemma StepKeepsFullAgreement(lib: Library, reliable: bool, s: State, action: Action, outcome: Outcome, t: State)
    requires StepOf(lib, reliable, s, action, outcome, t) && Kept(s.db, action, outcome) && Applies(action)
    requires Keyed(s.db) && Keyed(t.db) && Orderly(s.db) && AgreesFully(s)
    ensures Orderly(t.db) && AgreesFully(t)
  {
    hide Proper, CanSave, Written, Shows, ShowsOutbounds, EgressStore.Possible, EgressStore.Performed, JobAudit, TableAfterJob, Orderly;
    hide InboundSaves.Restarted, Keyed, PersistStep, InboundSaves.Patched;
    assert Agrees(s);
    StepKeepsAgreement(lib, reliable, s, action, outcome, t);
    if action.Persist? {
      PersistStepKeeps(reliable, s, action.rows, outcome.done, t);
    }
    if action.SaveRows? && outcome.refused.None? {
      WrittenKeepsRest(s.db, action.request, t.db.(audit := s.db.audit));
    }
  }

  lemma WrittenKeepsRest(db: Database, request: SaveRequest, after: Database)
    requires Written(db, request, after)
    ensures after.base == db.base && after.tables.endpoints == db.tables.endpoints && after.tables.managed == db.tables.managed
  {
  }

  /** Over every run of saves, jobs, starts and stops, each succeeding or failing: as long as the actions keep the
      agreement, a running core has exactly the inbounds, users and outbounds of the committed database; and if base
      configuration and endpoints are always applied, it runs the full rendering. */
  lemma {:induction false} RunAgrees(lib: Library, reliable: bool, states: seq<State>, actions: seq<Action>, outcomes: seq<Outcome>, k: nat)
    requires IsRun(lib, reliable, states, actions, outcomes) && k <= |actions|
    requires Orderly(states[0].db) && Agrees(states[0])
    requires forall j :: 0 <= j < k ==> Kept(states[j].db, actions[j], outcomes[j])
    ensures Orderly(states[k].db) && Agrees(states[k])
    ensures AgreesFully(states[0]) && (forall j :: 0 <= j < k ==> Applies(actions[j])) ==> AgreesFully(states[k])
  {
    hide Keyed, Orderly, Agrees, AgreesFully, Kept, StepOf, Applies;
    if k > 0 {
      RunAgrees(lib, reliable, states, actions, outcomes, k - 1);
      assert StepOf(lib, reliable, states[k - 1], actions[k - 1], outcomes[k - 1], states[k - 1 + 1]);
      StepKeepsAgreement(lib, reliable, states[k - 1], actions[k - 1], outcomes[k - 1], states[k]);
      if AgreesFully(states[0]) && forall j :: 0 <= j < k ==> Applies(actions[j]) {
        StepKeepsFullAgreement(lib, reliable, states[k - 1], actions[k - 1], outcomes[k - 1], states[k]);
      }
    }
  }

  /** If no step fails of itself, proper requests are all it takes. */
  lemma ReliableRunsAgree(lib: Library, s: State, action: Action, outcome: Outcome, t: State)
    requires StepOf(lib, true, s, action, outcome, t)
    requires action.SaveRows? ==> Proper(s.db, action.request)
    ensures Kept(s.db, action, outcome)
  {
    hide Proper, CanSave, Written, Shows, ShowsOutbounds, EgressStore.Possible, EgressStore.Performed, JobAudit, TableAfterJob, Orderly, Agrees;
  }

  // ---------------------------------------------------------------- the managed rules

  /** A committed request overwrites an endpoint with rules under another tag. */
  ghost predicate Renames(s: State, action: Action, outcome: Outcome, t: State) {
    action.SaveEndpoints? && outcome == Saving(None) && EgressStore.Renames(s.db.tables, EgressRequest(action.endpoint), t.db.tables)
  }

  lemma StepKeepsRules(lib: Library, reliable: bool, s: State, action: Action, outcome: Outcome, t: State)
    requires StepOf(lib, reliable, s, action, outcome, t)
    requires EgressStore.Keyed(s.db.tables) && Exact(s.db.tables)
    ensures Exact(t.db.tables) <==> !Renames(s, action, outcome, t)
  {
    hide Proper, CanSave, Shows, ShowsOutbounds, Exact, EgressStore.Keyed, EgressStore.Possible, EgressStore.Performed;
    hide EgressStore.Renames, JobAudit, TableAfterJob, Orderly, Agrees;
    if action.SaveEndpoints? && outcome.refused.None? {
      EgressStore.PerformedKeepsRules(lib, s.db.tables, EgressRequest(action.endpoint), t.db.tables);
    } else {
      EgressStore.SameEndpointsExact(s.db.tables, t.db.tables);
    }
  }

  /** Over every run the managed rules are exactly those derived from the committed endpoints, as long as none is
      renamed by an overwriting save; new endpoints that ask for fresh identifiers do not do that. */
  lemma {:induction false} RunKeepsRules(lib: Library, reliable: bool, states: seq<State>, actions: seq<Action>, outcomes: seq<Outcome>, k: nat)
    requires IsRun(lib, reliable, states, actions, outcomes) && k <= |actions|
    requires Exact(states[0].db.tables)
    requires forall j :: 0 <= j < k ==> !Renames(states[j], actions[j], outcomes[j], states[j + 1])
    ensures Exact(states[k].db.tables)
  {
    hide Exact, EgressStore.Keyed, Keyed, Renames, StepOf;
    if k > 0 {
      RunKeepsRules(lib, reliable, states, actions, outcomes, k - 1);
      assert StepOf(lib, reliable, states[k - 1], actions[k - 1], outcomes[k - 1], states[k - 1 + 1]);
      KeyedTables(states[k - 1].db);
      StepKeepsRules(lib, reliable, states[k - 1], actions[k - 1], outcomes[k - 1], states[k]);
    }
  }

  /** No action stores a new endpoint under an identifier of its own choice. */
  predicate AsksFresh(action: Action) {
    action.SaveEndpoints? && action.endpoint.PutEndpoint? && action.endpoint.act == New ==> action.endpoint.id == 0
  }

  lemma FreshRenamesNothing(s: State, action: Action, outcome: Outcome, t: State)
    requires EgressStore.Keyed(s.db.tables) && AsksFresh(action)
    ensures !Renames(s, action, outcome, t)
  {
    hide EgressStore.Keyed, EgressStore.Renames;
    if action.SaveEndpoints? {
      EgressStore.FreshRenamesNothing(s.db.tables, EgressRequest(action.endpoint), t.db.tables);
    }
  }

  // ---------------------------------------------------------------- the stored endpoints

  lemma StepKeepsNormal(lib: Library, reliable: bool, s: State, action: Action, outcome: Outcome, t: State)
    requires StepOf(lib, reliable, s, action, outcome, t) && StoredEndpoints.AllNormal(lib, s.db.tables)
    ensures StoredEndpoints.AllNormal(lib, t.db.tables)
  {
    hide Proper, CanSave, Shows, ShowsOutbounds, EgressStore.Possible, EgressStore.Performed, Follows, FollowsJob;
    hide StoredEndpoints.NormalFormOf, Strict, JobAudit, TableAfterJob, Orderly, Agrees;
    if action.SaveEndpoints? && outcome.refused.None? {
      StoredEndpoints.PerformedKeepsNormal(lib, s.db.tables, EgressRequest(action.endpoint), t.db.tables);
    }
  }

  /** Over every run every committed strict WireGuard endpoint is in normal form. */
  lemma {:induction false} RunKeepsNormal(lib: Library, reliable: bool, states: seq<State>, actions: seq<Action>, outcomes: seq<Outcome>, k: nat)
    requires IsRun(lib, reliable, states, actions, outcomes) && k <= |actions|
    requires StoredEndpoints.AllNormal(lib, states[0].db.tables)
    ensures StoredEndpoints.AllNormal(lib, states[k].db.tables)
  {
    hide StoredEndpoints.AllNormal, StepOf, Keyed;
    if k > 0 {
      RunKeepsNormal(lib, reliable, states, actions, outcomes, k - 1);
      assert StepOf(lib, reliable, states[k - 1], actions[k - 1], outcomes[k - 1], states[k - 1 + 1]);
      StepKeepsNormal(lib, reliable, states[k - 1], actions[k - 1], outcomes[k - 1], states[k]);
    }
  }
}
