# Verification model of the proxy panel

This project models the parts of the panel where a mistake is hard to see: the normaliser of WireGuard endpoints, the
saves that change a running core inside a database transaction, traffic accounting, and a few small algorithms with
more in them than their length suggests. Run `dafny verify dfyconfig.toml`.

How it is built:

- Code that changes state step by step is modelled by methods with loops and by classes with fields. Each is proved
  against a specification: a predicate that says what is accepted, or a function that says what comes out. What the
  panel promises is then proved about those specifications, for all inputs, all runs or all interleavings.
- Tables are maps from primary key to row. A transaction is a copy of the tables that replaces them on commit.
- What the code cannot decide for itself (a database error, a core that fails to start, the moment another goroutine
  runs) is either a nondeterministic choice or a parameter that says in advance which steps fail. Where it is a
  choice, a constant `reliable` says that no step fails of itself; a request is then carried out whenever it is possible.
- A run is a sequence of states, each related to the next by what the operation between them may do. Methods that
  perform a run return that sequence, and the theorems about runs are lemmas on it.
- A property that does not hold of the code as it stands is stated with the exact condition under which it holds.

## The files

| file | subject |
|---|---|
| `Wrappers`, `Strings`, `UintArrays`, `Prefixes` | optional values; trimming, joining, splitting, sorting, decimals; id lists; address prefixes |
| `WireGuardModel`, `WireGuardNormalizer`, `WireGuardRouting`, `WireGuardSecrets`, `LawfulLibrary` | which endpoints are accepted and in what form they are stored; the method that decides it; what the running core routes; hiding and restoring secrets; the assumption about the address library can be met |
| `ManagedRoutes`, `EgressTables`, `EgressStore`, `StoredEndpoints` | routes derived from endpoints; tags shared by endpoints and outbounds; saving both; what holds of every stored endpoint |
| `Clients` | delayed start, periodic reset, depletion |
| `Rendering`, `RunningCore`, `ClientSaves`, `InboundSaves`, `OutboundSaves`, `Coherence`, `JobInterleavings`, `PanelState`, `PanelSteps`, `ConfigService` | the full rendering of the database, the core that runs it, the saves that change both, a job between the steps of a save, what each action does and what follows for runs, and the two-resource commit |
| `TrafficStore`, `Tracker`, `TrafficLedger` | storing collected traffic, the counters, and the books under every interleaving |
| `ImportFiles`, `ImportDatabase` | replacing the database file |
| `LoginLimiter`, `StatsBuckets`, `QueryStrings`, `Links`, `ConnectionSources`, `LookupBudget`, `LookupTargets` | login limiter, down-sampling, query strings, share links, source attachment, lookup budget and work list |

## Findings

Properties one would expect that the code does not have in general. Each is stated with its exact condition.

- Normalising an accepted endpoint again may infer assigned addresses, but it never changes what a peer routes
  (`SecondPassKeepsRouting`).
- A WireGuard peer submitted with a public key that is not stored takes the pre-shared key and the client private key
  of whatever peer is stored at its position, if its own are blank (`ForeignExactly`, `StrangerTakesSecrets`).
- A new endpoint sent with the identifier of a stored one leaves that one's managed routes behind when the tag differs
  (`SavedRulesExact`, `RuleLeftBehind`).
- A new client, inbound or outbound sent with the identifier of an existing row, and a bulk addition whose later
  clients have inbounds the first one lacks, can leave the running core behind the database (`NewClientExact` with
  `OverwrittenClientStays`, `AddBulkExact` with `BulkCanFallBehind` and `BulkOverwriteSeen`, `NewInboundExact` with
  `OverwrittenInboundRunsOn`, `OutboundsShown` with `OverwrittenOutboundRunsOn`). `SaveStepExact` says for every
  request whether it does; over runs of other requests the core never falls behind (`RunAgrees`, `ReliableRunsAgree`).
- A depletion job does not wait for a save that is under way. If it restarts an inbound after the save did, from the
  rows without the save's changes, the core falls behind exactly when the save changes what such an inbound shows
  (`JobInsideSave` with `JobUndoesSave`) or the inbound itself (`JobInsideInboundSave`).
- Client names are not unique. Traffic collected for a name is credited to every row of that name, or to none: all
  runs account for all bytes exactly when one row bears the name (`TotalsBalanceForUniqueNames`,
  `NamesakesBothCredited`). Bytes counted on a counter from before a tracker reset are lost as well.
- A depletion job repeated at the same time is without effect exactly when no row has a negative reset period of a
  certain kind (`SecondRunQuiet`, `RestlessForEver`).
- A login failure that arrives late, while its key is locked, ends the lock exactly when the counting window is over
  (`RecordLoginFailure`, `LateFailureEndsLock`).
- A database import whose restore cannot remove the log of the imported database leaves the restored file beside a
  foreign log (`ImportDB`, `ImportLeavingForeignLog`). An import without an open handle loses the changes that are only
  in the write-ahead log (`ImportWithoutHandle`); the panel opens its database before it serves imports, so this
  concerns only another caller of the function.
- A link does not carry all transport and TLS settings; `CanonicalTransport` and `CanonicalTls` say exactly which
  (`LinkRoundTrip`). The protocol names under "alpn" are printed unescaped, so a name with `&`, `#`, `%`, `+`, `;` or
  a control character is lost and may change the transport (`AlpnLost`, `AmpersandLost`, `AlpnChangesTransport`); the
  flow is lost without TLS.

## Model

| member | source | states |
|---|---|---|
| Prefixes.MaskedSound | service/wireguard.go:516-516 | masking keeps exactly the addresses of a prefix and is idempotent |
| Prefixes.OverlapsIffShared | service/wireguard.go:408-412 | two prefixes overlap if and only if some address lies in both |
| Prefixes.OverlapMeansNested | service/wireguard.go:538-538 | of two overlapping prefixes the longer lies inside the shorter |
| Prefixes.DefaultRouteContainsFamily | service/wireguard.go:517-519 | a prefix of length 0 contains every address of its family |
| LawfulLibrary.LawfulLibraryExists | service/wireguard.go:114-120 | the round trip assumed of the prefix parser and printer can be met |
| WireGuardNormalizer.NormalizeAndValidate | service/wireguard.go:200-628 | accepts exactly the endpoints that meet a declarative list of conditions, leaves other schemas alone, blames the first peer at fault, and returns a normal form whose fields are settled one by one: name and keys as submitted, a client key in its mode only, role and mode together, no address for a dynamic peer, the gateway's inbounds, the exported routes |
| WireGuardModel.NormalSettled | service/wireguard.go:305-625 | the normal form of an accepted peer, field by field from what was submitted |
| WireGuardModel.RoleReadsBack | service/wireguard.go:143-180 | the role of a normal peer can be read back from its mode alone |
| WireGuardNormalizer.NormalizePeer | service/wireguard.go:299-625 | one turn of the loop accepts a peer exactly if it is acceptable alone and clashes with no earlier peer, and records its hosts, sites and runtime prefixes |
| WireGuardNormalizer.FreshIffPairs | service/wireguard.go:291-298 | not clashing with the growing lists is not clashing with any earlier peer in key, hosts, sites or runtime prefixes |
| WireGuardNormalizer.CheckAddresses | service/wireguard.go:240-263 | accepts exactly distinct host addresses inside the virtual networks |
| WireGuardNormalizer.InferSlots | service/wireguard.go:356-370 | the first host address of each family among the older fields |
| WireGuardNormalizer.CheckAssigned | service/wireguard.go:371-415 | accepts exactly assigned hosts of different families, inside the networks, not the endpoint's own and apart from earlier peers |
| WireGuardNormalizer.CheckSites | service/wireguard.go:416-442 | accepts exactly sites that a gateway must and others must not have, outside the virtual networks and pairwise disjoint |
| WireGuardNormalizer.InferPreset | service/wireguard.go:469-486 | the inferred route preset |
| WireGuardNormalizer.SameStringSet | service/wireguard.go:630-646 | the counting comparison of two lists is equality of their trimmed texts with multiplicity |
| WireGuardNormalizer.CheckRuntimeTexts | service/wireguard.go:509-531 | accepts exactly parsable prefixes, of length 0 only for the full tunnel, apart from those of other peers, and returns them masked without repetition |
| WireGuardNormalizer.CheckCoverage | service/wireguard.go:532-547 | every site lies inside one of the runtime prefixes |
| WireGuardNormalizer.ClientRoutes | service/wireguard.go:553-623 | accepts exactly the permitted client routes and returns those of the included families |
| WireGuardRouting.RuntimeOptions | database/model/endpoints.go:105-141 | the runtime endpoint keeps kind, tag, key, addresses and port; each peer keeps both its keys, has a remote address exactly if it is static, the AllowedIPs of the first list that is set, and no editor field |
| WireGuardRouting.RunningIsStripped | database/model/endpoints.go:105-141 | a peer of the runtime options of the stored form is the normal form of that peer, stripped to its runtime fields |
| WireGuardRouting.RunningRemote | database/model/endpoints.go:121-135 | in the runtime options of an accepted endpoint a static peer has the address and port it was given, a dynamic one none |
| WireGuardRouting.FullTunnelRoutesAll | service/wireguard.go:487-507 | without a list of its own the full tunnel routes every valid address |
| WireGuardRouting.PresetRoutes | service/wireguard.go:487-531 | the runtime prefixes of the other presets: the peer's addresses, its sites as well, or the list given |
| WireGuardRouting.OneAddressOnePeer | service/wireguard.go:509-531 | in the runtime options of an accepted endpoint no address is routed to two peers |
| WireGuardRouting.DefaultRouteExcludesOthers | service/wireguard.go:466-531 | a peer with a prefix of length 0 leaves no prefix of that family to any other peer |
| WireGuardRouting.SiteBelongsToItsGateway | service/wireguard.go:416-547 | an address of a gateway's site is routed to that peer and to no other, lies in no other gateway's site and in no virtual network |
| WireGuardRouting.NormalNetworks | service/wireguard.go:548-551 | the runtime AllowedIPs of the stored form denote exactly the peer's runtime prefixes |
| WireGuardRouting.RuntimeUnchanged | service/wireguard.go:356-370 | the runtime prefixes of a peer are the same set after its normal form is normalised again, under all presets |
| WireGuardRouting.SecondPassKeepsRouting | service/wireguard.go:466-551 | normalising an accepted endpoint again, if it is accepted, leaves each peer's runtime AllowedIPs the same set |
| WireGuardSecrets.RedactSecrets | service/wireguard.go:715-732 | every secret that is not empty is replaced by the marker and flagged, stored key pairs lose their private part, nothing else changes |
| WireGuardSecrets.ShownAlikeExactly | service/wireguard.go:107-112 | two endpoints are shown alike exactly if they differ in nothing but which secrets they hold |
| WireGuardSecrets.MergeSecrets | service/wireguard.go:648-708 | the merge through two lookup tables equals a per-peer definition by last stored peer of the key, then position; a secret that is given is kept, a cleared one goes, and nothing but secrets changes |
| WireGuardSecrets.NeverForeign | service/wireguard.go:680-706 | a merged peer whose public key is stored has the secret submitted or its own stored one, never another peer's |
| WireGuardSecrets.ForeignExactly | service/wireguard.go:681-703 | a merged peer holds the secret of a peer with another key exactly if its key is not stored, its position is, and its own secret is blank and not cleared while the peer there has one |
| WireGuardSecrets.StrangerTakesSecrets | service/wireguard.go:681-703 | a peer with a new key and no secrets takes both secrets of the peer stored at its position |
| WireGuardSecrets.RedactedPeerRestored | service/wireguard.go:680-706 | a peer sent back as shown gets its stored keys back at whatever position |
| WireGuardSecrets.RedactMergeRoundTrip | service/wireguard.go:648-732 | redacting and merging back restores the server key and the keys of every peer that is kept, for any reordering or deletion of peers with unique public keys |
| ManagedRoutes.SiteKeyInjective | service/wireguard.go:759-780 | keys of site rules are equal only for the same tag and peer index |
| ManagedRoutes.KeyTellsRule | service/wireguard.go:734-782 | rules with equal keys come from endpoints of the same tag, and within one endpoint are the same rule |
| ManagedRoutes.ContainsManagedRoute | service/config.go:513-533 | finds a rule exactly if one matches |
| ManagedRoutes.MatchesIffEquivalent | service/config.go:513-533 | for clean texts, matching by sorted and joined lists is equality up to order of inbounds and CIDRs |
| ManagedRoutes.InjectManagedRoutes | service/config.go:456-481 | the loop appends a rule for each non-empty item that is not contained yet |
| ManagedRoutes.UserRulesFirst | service/config.go:456-481 | the user's rules are an exact prefix, what follows was added for a managed item, other route keys are untouched |
| ManagedRoutes.EveryItemHasItsRoute | service/config.go:456-533 | every non-empty managed item has an equivalent rule afterwards |
| ManagedRoutes.InjectionIsIdempotent | service/config.go:456-533 | injecting into the encoded result adds nothing |
| EgressTables.EnsureEgressTagAvailable | service/egress_tags.go:12-58 | true exactly if no other endpoint and no outbound, or the reverse, bears the trimmed tag and it is not empty |
| EgressTables.SyncManagedRoute | service/wireguard.go:734-782 | afterwards the rules of the endpoint are exactly its derived ones, and rules of other tags stay unless their key is reused |
| EgressTables.SavedRulesExact | service/endpoints.go:75-156 | after a save the managed rules are exactly those derived from the stored endpoints, if and only if the save was not an overwrite that renames an endpoint with rules |
| EgressTables.RuleLeftBehind | service/endpoints.go:127-131 | a new endpoint under the identifier of a stored one with another tag: the rule of the old tag stays |
| EgressTables.ExactDetermines | service/wireguard.go:734-782 | the stored endpoints determine the table of managed rules |
| EgressTables.SavedTagsUnique | service/egress_tags.go:12-58 | saving under a free tag keeps tags unique across both tables |
| EgressTables.DeletedRulesExact | service/endpoints.go:139-151 | deleting an endpoint with the rules of its tag keeps the table exact |
| EgressStore.Store.SaveEndpoint | service/endpoints.go:75-138 | carried out if it is possible and no step fails: one row is written under the requested or a fresh id, with stored secrets merged in and a strict endpoint in normal form, its rules are derived anew and those of a former tag dropped; tags stay unique, an error changes nothing |
| EgressStore.Store.DeleteEndpoint | service/endpoints.go:139-151 | exactly the endpoints of the tag and the rules of the tag go |
| EgressStore.Store.SaveOutbound | service/outbounds.go:62-102 | the row part of saving an outbound keeps tags unique and endpoints and rules untouched |
| EgressStore.Store.DeleteOutbound | service/outbounds.go:103-118 | exactly the outbounds of the tag go |
| EgressStore.PerformedKeepsRules | service/endpoints.go:75-156 | every performed request keeps the managed rules exact if and only if it does not rename an endpoint with rules by overwriting it |
| EgressStore.RunKeepsRules | service/endpoints.go:75-156 | over every run tags are unique across both tables, and the managed rules are the derived ones as long as no request renames by overwriting |
| EgressStore.Store.Run | service/endpoints.go:75-156 | each request is performed or leaves the tables alone, from the tables the one before it left, and is performed if it is possible and no step fails; keys are unique throughout, and the rules exact if new endpoints ask for fresh identifiers |
| StoredEndpoints.PerformedKeepsNormal | service/endpoints.go:75-156 | every performed request leaves each stored strict endpoint the normal form of an accepted one |
| StoredEndpoints.RunKeepsNormal | service/endpoints.go:75-156 | so it is at every point of every run |
| StoredEndpoints.StoredOneAddressOnePeer | service/wireguard.go:509-531 | no address is routed to two peers of a stored endpoint |
| StoredEndpoints.StoredSiteRouted | service/wireguard.go:759-780 | an address of a stored site is routed to its gateway and to no other peer, and lies in a CIDR of that gateway's own stored rule, which has exactly the sites and the inbounds of the gateway |
| StoredEndpoints.EndpointStored | service/endpoints.go:75-138 | the row a save leaves: the submitted endpoint under its trimmed tag with its key pairs, a strict one settled field by field |
| StoredEndpoints.StoredHubRouted | service/wireguard.go:747-757 | the managed rules hold a hub rule for a stored WireGuard endpoint exactly if it forwards between peers, from the endpoint to the tunnel networks that are set |
| UintArrays.UnionUintArray | util/common/array.go:4-16 | the members of either list, each once |
| UintArrays.DiffUintArray | util/common/array.go:21-45 | the members of exactly one of the lists |
| Clients.ResetClients | service/client.go:534-614 | every row is reset as its group says, the reported inbounds are those of rows re-enabled, one audit row for each delayed start |
| Clients.DepleteClients | service/client.go:469-532 | rows, reported inbounds and audit rows of the whole job, nothing on an error |
| Clients.GroupsDisjoint | service/client.go:534-596 | no row is in two of the three reset groups |
| Clients.StartedClientExpires | service/client.go:539-556 | a client whose delayed start ends runs for its days of 86400 seconds, then the job disables it |
| Clients.PeriodicClientRollsOver | service/client.go:558-596 | a periodic client rolls over next exactly after its days; a rollover moves the counters into the totals and enables the client |
| Clients.JobOnRow | service/client.go:469-614 | a client of no group is disabled exactly if it is over its volume or expired, and otherwise left alone; only a rollover enables |
| Clients.JobMeetsLimits | service/client.go:469-596 | afterwards no enabled client is over its volume or expired, and current plus total volumes are unchanged in both directions |
| Clients.ChangedInboundsReported | service/client.go:469-532 | an inbound whose enabled clients changed is reported |
| Clients.SecondRunOnRow | service/client.go:469-614 | a second run leaves a row alone and reports nothing, if and only if the row is not restless |
| Clients.RestlessForEver | service/client.go:469-614 | an expired client with a negative period is re-enabled and disabled, and its inbounds reported, by every run |
| Clients.SecondRunQuiet | service/client.go:469-614 | a second run at the same time changes and reports nothing, exactly if no row is restless; in particular if no reset period is negative |
| Rendering.GetConfig | service/config.go:62-105 | the rendered configuration shows every inbound with its users, every outbound, and nothing else; the user texts are the parts of the settings under the inbound's kind, verbatim but for the flow of VLESS without TLS |
| Rendering.RenderedServes | service/inbounds.go:245-304 | which inbounds have users, which clients those are, and the text of each |
| Rendering.OneWordRemoved | service/inbounds.go:280-282 | a flow that occurs once is cut out of the text and the rest stays |
| Rendering.WithoutUnique | service/inbounds.go:280-282 | cutting a word out wherever it occurs has one result |
| Rendering.GetAllInbounds | service/inbounds.go:224-243 | one listener for each inbound, with the enabled clients that refer to it |
| Rendering.RenderedTellsUsers | service/inbounds.go:245-304 | two client tables render an inbound alike exactly if it shows the same of every client: nothing, or the part of the settings under the inbound's own key, with the flow stripped where it is |
| Rendering.SettingsSeen | service/inbounds.go:274-282 | other settings of an enabled client change the inbound exactly if that part differs |
| Rendering.RenderingUnique | service/config.go:62-105 | a database has one full rendering |
| RunningCore.Core.Start | core/main.go:50-82 | on success the core runs the configuration, on failure it is no more running than before |
| RunningCore.Core.Stop | core/main.go:102-110 | stopped without an instance even if closing fails |
| RunningCore.Core.AddInbound | core/endpoint.go:11-34 | on success exactly the inbound of that tag changes; refused when not running |
| RunningCore.Core.RemoveInbound | core/endpoint.go:36-42 | exactly the inbound of that tag goes |
| RunningCore.Core.AddOutbound | core/endpoint.go:44-72 | on success exactly the outbound of that tag changes |
| RunningCore.Core.RemoveOutbound | core/endpoint.go:74-80 | exactly the outbound of that tag goes |
| ClientSaves.FindInboundsChanges | service/client.go:616-648 | the inbounds of both rows if name, settings or flag differ, else those of one row only; omitted settings come from the stored row |
| ClientSaves.Save | service/client.go:132-273 | each submitted client stands under its identifier, in a bulk edit the last one with the stored settings, new ones under the next identifiers, and all other rows as they were; exactly the inbounds reported; carried out exactly if possible when no step fails |
| ClientSaves.ReportComplete | service/client.go:194-273 | for edits and deletions, single or in bulk, the report covers every inbound that has another client afterwards, also when a client is listed twice |
| InboundSaves.InboundService.RestartInbounds | service/inbounds.go:331-362 | exactly the given inbounds are rendered anew, all others run on unchanged |
| InboundSaves.InboundService.Save | service/inbounds.go:103-202 | the submitted row under its identifier, the references of clients, all else as it was; the running inbounds patched; nothing runs differently if the core is stopped |
| InboundSaves.InboundService.Write | service/inbounds.go:160-197 | the rows of a save, with clients updated and tags kept unique |
| InboundSaves.UpdateClientsOnInboundAdd | service/client.go:326-374 | exactly the given clients get the inbound |
| InboundSaves.UpdateClientsOnInboundDelete | service/client.go:376-421 | no client keeps the inbound, other references stay |
| OutboundSaves.Save | service/outbounds.go:62-123 | rows and running outbounds after a save |
| OutboundSaves.OutboundsShown | service/outbounds.go:62-123 | the patched running outbounds are the full rendering of the new rows, except exactly for a new outbound that overwrites a row of another tag |
| OutboundSaves.OverwrittenOutboundRunsOn | service/outbounds.go:62-102 | a new outbound under the identifier of one with another tag: the old one runs on |
| Coherence.RestartExact | service/inbounds.go:331-362 | restarting some inbounds gives the full rendering of the new clients if and only if every other inbound shows the same of every client |
| Coherence.NewClientExact | service/client.go:137-166 | a new client's report is complete exactly if it overwrites no client that is enabled in an inbound it does not name |
| Coherence.OverwrittenClientStays | service/client.go:137-166 | a new client under the identifier of one enabled elsewhere: that inbound runs on with the old user |
| Coherence.AddBulkExact | service/client.go:167-193 | the report of any bulk addition is complete exactly if, in every inbound the first client lacks, the entries that last show what the rows they replace showed |
| Coherence.NewClientsShare | service/client.go:167-193 | for clients that ask for new identifiers: exactly if every inbound that gets a user from one of them belongs to the first one |
| Coherence.BulkCanFallBehind | service/client.go:182-186 | two new clients of which the second has an inbound the first lacks: the report misses that inbound |
| Coherence.BulkOverwriteSeen | service/client.go:182-186 | a bulk addition that overwrites a client of another inbound: the report is complete exactly if that inbound shows the same part of both settings |
| Coherence.JobCovered | cronjob/depleteJob.go:18-30 | the inbounds reported by the depletion job cover all it affects |
| JobInterleavings.JobInsideSave | cronjob/depleteJob.go:18-30 | a job that commits before a save of clients and restarts its inbounds after it leaves the core with the rows of the save exactly if every reported inbound shows the same of every client before and after the save |
| JobInterleavings.JobInsideInboundSave | cronjob/depleteJob.go:18-30 | the same for a save of an inbound: exactly if every reported inbound is still there and shows the same, so a changed, renamed or deleted one comes back |
| JobInterleavings.JobBeforeSave | cronjob/depleteJob.go:18-30 | a job that has restarted its inbounds before the save restarts its own is harmless |
| JobInterleavings.JobUndoesSave | cronjob/depleteJob.go:18-30 | the job disables a client that is over its volume while a save edits another of the same inbound: the inbound goes back to the other's former settings |
| Coherence.NewInboundExact | service/inbounds.go:127-166 | a new inbound started with the chosen clients is what a full rendering shows, exactly if no other enabled client refers to its id and an overwritten row had the same tag |
| Coherence.OverwrittenInboundRunsOn | service/inbounds.go:127-166 | a new inbound under the identifier of one with another tag: the old one runs on |
| Coherence.EditInboundShows | service/inbounds.go:127-163 | an edited or renamed inbound is what a full rendering shows |
| Coherence.DeleteInboundShows | service/inbounds.go:173-197 | after a deletion the running inbounds are the full rendering |
| Coherence.InboundsShown | service/inbounds.go:103-202 | the patched running inbounds are the full rendering after any save of an inbound, except exactly for a new one that does not fit |
| PanelState.ReportExact | service/client.go:132-273 | the report of any client request covers every inbound it affects exactly if the request fits |
| PanelState.SaveExact | service/config.go:264-281 | a running core changed as far as a save changes it agrees with the new rows exactly if the request fits |
| PanelState.WrittenKeepsOrder | service/client.go:326-421 | clients go on referring to existing inbounds |
| ConfigService.Panel.RestartCoreWithRaw | service/config.go:155-181 | afterwards the core runs the configuration, or is stopped, or another start was under way and nothing happened |
| ConfigService.Panel.StartCore | service/config.go:107-145 | a stopped core is started with the full rendering of the committed database or stays stopped |
| ConfigService.Panel.RestoreRuntimeState | service/config.go:365-373 | the core runs the old configuration if it was running, else it is stopped |
| ConfigService.Panel.StageClients | service/config.go:264-273 | saving clients restarts exactly the reported inbounds with the new rows and touches nothing else |
| ConfigService.Panel.StageInbounds | service/config.go:277-279 | saving an inbound patches exactly its own running form |
| ConfigService.Panel.StageOutbounds | service/config.go:280-281 | saving an outbound patches exactly its own running form |
| ConfigService.Panel.SaveWithApply | service/config.go:206-307 | an error leaves database and audit table unchanged and a running core back on the full rendering of the old database, unless restarting it fails; success commits the rows with exactly one audit row and changes the running core in the reported inbounds, the saved inbound or the saved outbound only |
| ConfigService.Panel.Publish | service/config.go:327-362 | the staged database is committed with one audit row and the core runs its rendering, or nothing is committed and the core is back as it was unless that fails |
| ConfigService.Panel.SaveConfigWithApply | service/config.go:309-363 | the same for the base configuration; without apply the core is not touched |
| ConfigService.Panel.SaveEndpointWithApply | service/config.go:375-423 | the same for endpoints, whose tables change as `EgressStore.Performed` says, committed exactly if the request is possible when no step fails |
| ConfigService.Panel.Deplete | cronjob/depleteJob.go:18-30 | the job commits exactly the rows after the job with one audit row for each delayed start and each disabled client, and restarts exactly the reported inbounds; an error changes nothing |
| ConfigService.Panel.Persist | service/stats.go:26-93 | stored traffic changes the counters of the clients of its names, and nothing of the core |
| PanelSteps.SaveStepExact | service/config.go:206-307 | a successful save on a running core that agrees with the rows keeps the agreement if and only if the request fits |
| PanelSteps.CommittedClients | service/client.go:160-165 | a committed save of clients leaves the submitted rows: the row of an edited client is the submitted one |
| PanelSteps.CommittedInbounds | service/inbounds.go:160-197 | the same for inbounds: the submitted row, the references of clients, all else as it was |
| PanelSteps.CommittedOutbounds | service/outbounds.go:62-118 | the same for outbounds: kind and options as submitted under the trimmed tag |
| PanelSteps.JobStepKeeps | cronjob/depleteJob.go:18-30 | a job that could restart its inbounds keeps the agreement |
| PanelSteps.PersistStepKeeps | service/stats.go:56-69 | storing traffic keeps every running inbound what a rendering would show |
| PanelSteps.StepKeepsAgreement | service/config.go:206-423 | every step of a proper request, a job that could restart, the storing of traffic, a start or a stop keeps the core in agreement with the committed rows |
| PanelSteps.StepKeepsFullAgreement | service/config.go:309-423 | if base configuration and endpoints are applied when saved, every step keeps the core running the full rendering, endpoints, managed routes and base included |
| PanelSteps.RunAgrees | service/config.go:206-423 | over every run, after each action before the first that breaks the condition, a running core has exactly the inbounds, users and outbounds of the committed database; the full rendering if everything saved is applied |
| PanelSteps.ReliableRunsAgree | service/config.go:206-423 | if no step fails of itself, proper requests are enough |
| PanelSteps.StepKeepsRules | service/config.go:375-423 | every step keeps the managed rules exact if and only if it does not rename an endpoint with rules by overwriting it |
| PanelSteps.RunKeepsRules | service/config.go:375-423 | over every run without such a step the managed rules are exactly those derived from the committed endpoints |
| PanelSteps.RunKeepsNormal | service/config.go:375-423 | over every run every committed strict WireGuard endpoint is in normal form |
| ConfigService.Panel.Run | service/config.go:206-423 | performs the actions one after the other, each from the state the one before it left, as its step relation says; `agreed` tells exactly whether every action kept the condition; agreement holds up to the first that did not, and the managed rules stay exact if new endpoints ask for fresh identifiers |
| ConfigService.AgreesWithRendering | service/config.go:62-105 | a core in agreement has the inbounds and outbounds of any full rendering |
| TrafficStore.StatsService.SaveStats | service/stats.go:26-93 | every client row grows by exactly the traffic collected under its name, the online lists name exactly the tags that uploaded, and an error changes nothing |
| TrafficStore.AddTraffic | service/stats.go:56-69 | adding the rows one by one adds their sums |
| TrafficStore.NamesakesBothCredited | service/stats.go:56-69 | two clients of one name are both credited with the bytes of one |
| Tracker.StatsTracker.GetReadCounters | core/tracker_stats.go:45-64 | a connection gets the counter of each of its tags that is not empty, existing ones are kept |
| Tracker.StatsTracker.LoadOrCreateCounter | core/tracker_stats.go:66-74 | the counter of the key, new and zero if there was none |
| Tracker.StatsTracker.Drain | core/tracker_stats.go:93-111 | the loop over one resource moves exactly what its counters held into the rows |
| Tracker.StatsTracker.GetStats | core/tracker_stats.go:86-153 | for each tag and direction the rows hold what the counter held, and all counters are zero |
| TrafficLedger.StepKeepsBalance | core/tracker_stats.go:86-153 | each atomic step, also in the middle of a collection, keeps counted = in the counter + in flight + saved + dropped |
| TrafficLedger.StepKeepsCredits | service/stats.go:56-69 | each step keeps every row of the name grown by exactly what was saved, through rollovers by the job |
| TrafficLedger.BytesConserved | core/tracker_stats.go:37-153 | over every interleaving of counting, collecting, saving, jobs and resets every byte of a client is in its counter, collected, saved or dropped, once |
| TrafficLedger.DroppedOnlyByFailure | service/stats.go:26-93 | without a failed save or a tracker reset nothing is dropped |
| TrafficLedger.StoredTotalsExact | service/stats.go:56-69 | at the end of a run the stored totals account for all bytes exactly if one row bears the name or nothing was saved for it |
| TrafficLedger.TotalsBalanceForUniqueNames | service/stats.go:56-69 | every run of a name ends with balanced totals if and only if exactly one row bears it |
| ImportFiles.Disk.Rename | database/backup.go:286-294 | only the main file moves, sidecars stay |
| ImportFiles.Disk.RemoveSidecars | database/backup.go:359-366 | the log goes unless its removal fails |
| ImportDatabase.Importer.Restore | database/backup.go:368-379 | unless the rename fails the old database is readable at the live path, exactly if no log of the imported one is left beside it |
| ImportDatabase.Importer.CloseDown | database/backup.go:272-280 | every step before the log is removed leaves the old content readable at the live path |
| ImportDatabase.Importer.MoveAside | database/backup.go:281-290 | the old database stands at the fallback path; its content is complete exactly if its log was empty or is still there |
| ImportDatabase.Importer.BringIn | database/backup.go:291-311 | the imported database is in place, migrated and opened, or the old one is restored |
| ImportDatabase.Importer.ImportDB | database/backup.go:218-312 | after every step until the imported database is open the old content can be read at the live or the fallback path, with two exact exceptions; every earlier error return leaves it at the live path unless the restoring rename fails |
| ImportDatabase.ImportWithoutHandle | database/backup.go:272-284 | a run of the import without an open handle after which the change in the log is gone |
| ImportDatabase.ImportLeavingForeignLog | database/backup.go:291-311 | a run that fails to migrate and cannot remove the log, after which the old database is not readable at the live path |
| LoginLimiter.Limiter.LoginAllowed | api/login_rate_limit.go:47-67 | refuses exactly locked keys and new keys of a full table, keeps locked entries, and tells the waiting time |
| LoginLimiter.WaitIsRestOfLock | api/login_rate_limit.go:59-61 | the waiting time is in whole seconds and within half a second of the rest of the lock |
| LoginLimiter.Limiter.RecordLoginFailure | api/login_rate_limit.go:69-86 | counts within the window, locks at the eighth failure, never exceeds the table size; a late failure ends a lock exactly if the window is over |
| LoginLimiter.EighthFailureLocks | api/login_rate_limit.go:69-86 | the first failure opens a window of five minutes, within it the eighth locks for five minutes |
| LoginLimiter.LateFailureEndsLock | api/login_rate_limit.go:76-85 | a failure that arrives while its key is locked and after the window is over: the key is no longer locked |
| LoginLimiter.Limiter.CleanupLocked | api/login_rate_limit.go:88-97 | removes exactly stale entries, at most once a period |
| LoginLimiter.CleanedExactly | api/login_rate_limit.go:88-97 | a cleanup at most once a minute removes exactly the entries whose window and lock are over |
| LoginLimiter.Limiter.ClearLoginFailures | api/login_rate_limit.go:99-103 | removes the entry of the key |
| LoginLimiter.Limiter.Attempt | api/login_rate_limit.go:47-103 | a locked key is refused and its lock stays until it ends; every allowed failure is recorded, in windows of at most eight; an allowed success clears the key |
| LoginLimiter.AtMostFourteen | api/login_rate_limit.go:69-86 | at most 14 recorded failures of a key fall into any five minutes |
| LoginLimiter.FourteenIsReached | api/login_rate_limit.go:69-86 | the bound of 14 is sharp |
| LoginLimiter.LockHolds | api/login_rate_limit.go:47-103 | over every run of attempts that ends before a lock does, the key is refused every time and the lock stays |
| LoginLimiter.Limiter.Run | api/login_rate_limit.go:47-103 | the answers and the table are those of the attempts one after the other; at every point of the run at most 14 allowed failures of a key since its last success fall into any five minutes |
| StatsBuckets.DownsampleStats | service/stats.go:118-159 | short input is returned as it is; otherwise a download and an upload row for each of maxRows/2 buckets, in order and under the labels of the input |
| StatsBuckets.CellAverage | service/stats.go:136-148 | the running sum and count give the average of the cell |
| StatsBuckets.ExactlyOneBucket | service/stats.go:124-144 | each time of the input lies in exactly one bucket, also when the span is forced to 1 |
| StatsBuckets.CellsPartitionRows | service/stats.go:118-159 | the cells together hold every row once: their sums and counts add up to the input's |
| StatsBuckets.RowsInOrder | service/stats.go:130-157 | the emitted times never decrease |
| StatsBuckets.RowTimes | service/stats.go:124-157 | the rows of a bucket stand at its beginning, at equal distances from the first input time on |
| StatsBuckets.AverageWithin | service/stats.go:137-148 | an average lies between the smallest and the largest value of its cell |
| StatsBuckets.AveragesAccountForTraffic | service/stats.go:118-159 | averages times counts fall short of the total traffic by less than the number of rows |
| Links.ListRoundTrip | util/genLink.go:70-89 | a list survives joining and splitting exactly if it is not empty and its items are trimmed, not blank and free of commas |
| QueryStrings.EscapeReadsBack | util/genLink.go:645-645 | an escaped value reads back as it was |
| QueryStrings.QueryReadsBack | util/genLink.go:634-651 | parameters whose raw values are plain are read back one for one |
| QueryStrings.AlpnLost | util/genLink.go:641-643 | an "alpn" that is not plain is never read back as it was printed, under whatever occurrence of the key |
| QueryStrings.AmpersandInjects | util/genLink.go:641-643 | an ampersand in a raw value begins a parameter that is read like any other |
| Links.TransportValues | util/genLink.go:653-697 | what the transport parser finds under each key is what the printer was given for that kind |
| Links.TlsValues | util/genLink.go:699-730 | what the TLS parser finds under each key is what the printer was given, for plain TLS and for Reality |
| Links.TransportRoundTrip | util/linkToJson.go:494-532 | with a plain "alpn" the query of a link gives back the transport if and only if it is canonical |
| Links.TlsRoundTrip | util/linkToJson.go:534-581 | the query of a link gives back the TLS settings if and only if they are canonical, which includes plain protocol names |
| Links.LinkRoundTrip | util/genLink.go:482-509 | the query of a link gives back transport, TLS settings and flow if and only if both settings are canonical and TLS is on or the flow empty |
| Links.LinkQuery | util/genLink.go:482-536 | the query printed for a link tells its settings exactly if they are canonical |
| Links.PrintAndRead | util/linkToJson.go:138-196 | a link that is printed and read gives the settings back exactly if they are canonical |
| Links.AmpersandLost | util/genLink.go:641-643 | the protocol name "a&b" is lost |
| Links.AlpnChangesTransport | util/genLink.go:641-643 | a protocol name with a header type in it makes a TCP link read back with an HTTP transport |
| Links.PathAppears | util/linkToJson.go:510-517 | a websocket transport without a path reads back with an empty one |
| ConnectionSources.BuildConnectionSourceIndex | service/connections.go:175-188 | under each key the index lists the candidates in their order |
| ConnectionSources.AttachConnectionSource | service/connections.go:190-214 | the row gets the earliest nearest candidate within ten seconds, or stays |
| ConnectionSources.IndexedScan | service/connections.go:161-214 | scanning the indexed candidates finds what a scan of all rows finds |
| ConnectionSources.AttachedFromUnique | service/connections.go:190-214 | what a row becomes is determined by the rows before the call, so the order of processing does not matter |
| ConnectionSources.AttachedFields | service/connections.go:190-214 | a row with a source stays as it is; another takes source and details, and nothing else, from a row of the same key within ten seconds |
| ConnectionSources.AttachConnectionSources | service/connections.go:161-166 | every row becomes what the linear scan over the rows before the call gives it |
| ConnectionSources.SameKeySameParts | service/connections.go:216-221 | keys are equal exactly for the same resource, protocol and tag |
| LookupBudget.GrantsAreExact | service/ip_info.go:70-96 | in every interleaving completed calls answered true are min(limit, calls), and the budget is never negative |
| LookupBudget.FailedSwapMeansProgress | service/ip_info.go:83-96 | a swap fails only because another call has taken from the budget |
| LookupTargets.Add | service/ip_info.go:214-229 | adding a record keeps one group for each key and each record in one place |
| LookupTargets.CollectConnectionInfoTargets | service/ip_info.go:210-249 | each distinct record with a key is in exactly one group, one group for each key |
| LookupTargets.ExactlyOnePlace | service/ip_info.go:210-249 | a record stands in one group only, once |
| LookupTargets.SameLookup | service/ip_info.go:251-263 | two records are looked up together exactly if they name the same address, host or text, up to case and surrounding space |

## Left out

Not modelled:

- Parsing and printing of address prefixes and keys: parameters with the round trip of the printer as the only assumption (`Lawful`), which `LawfulLibraryExists` shows can be met.
- JSON decoding: endpoints, clients, inbounds and links are records with optional fields; keys the code does not read are opaque text.
- Legacy WireGuard endpoints below schema 2, which the normaliser returns unchanged, and the export of client configurations.
- A static remote port that is absent and one that is 0 are not told apart.
- 64-bit wrap-around of volumes and times, and Go's case folding beyond ASCII.
- TLS, service and settings saves: the TLS object is part of the inbound; the restarts a TLS save triggers rest on code not modelled here.
- Settings of a client that lack the protocol of one of its inbounds: the query then yields NULL, which is left to the database library; here that user's text is empty.
- The table of traffic statistics, which is not part of the panel's database here.
- Client links, subscription ids and the volume fields a client form may overwrite: they do not reach the running core.
- The order of users in a rendered inbound: users are kept by client id.
- An empty tag in a removal, which the core refuses, and the registration of a WARP endpoint, which may change anything but kind and tag.
- Saves are serialised by a lock in the source and so here. The depletion job does not take that lock; a job between the steps of a save is treated for saves of clients and inbounds in `JobInterleavings`, not in the runs of `PanelSteps`. A save of an outbound touches no inbound.
- The core itself: starting, stopping, adding and removing are steps that may fail. A failed addition may leave any set of inbounds or outbounds.
- SQLite: a checkpoint that reports success has moved the whole log; a transaction is atomic, so a rollover never overwrites a concurrent save of traffic.
- A lookup without a budget, which is always allowed.
- The derivation of the limiter's keys.
- Links: server, port, user and remark, links whose server part does not parse, and VMess, Shadowsocks and Hysteria links. Beyond ASCII a character is escaped as a whole instead of byte by byte.
- DNS and owner lookups, caches, log parsing, pagination, HTTP handlers, sessions and user interface.

Stated with a restriction:

- Links.TransportRoundTrip: for a plain "alpn", since another can change the transport (`AlpnChangesTransport`); `LinkRoundTrip` is without restriction.
- WireGuardNormalizer.NormalizeAndValidate: error messages are reduced to the endpoint or the number of the first peer at fault.
- ManagedRoutes.InjectionIsIdempotent: for tags and CIDRs that are trimmed and free of the separator, as the normaliser stores them.
- Tracker.StatsTracker.GetReadCounters: the three maps of the tracker are one map keyed by resource and tag.
- LookupTargets.CollectConnectionInfoTargets: the three loops over the page are one loop over three passes.
- ImportDatabase.Importer.ImportDB: the steps that touch only the temporary file are one step with their nine errors.
