# Forail: relay, settings, membership and copying, verified

A Dafny model of the stateful parts of Forail: the websocket relay between web nodes and task nodes, the
layered settings cache, the signal handlers that maintain graphs and memberships, SAML login, and the
self-contained algorithms for copying, redaction, serializer metadata and PEM text.

`dafny verify dfyconfig.toml` checks all files.

## Layout

| files | what they model |
|---|---|
| `RelayConnection`, `RelayTable`, `RelayLedger` | one relay connection: its message loop and producer coroutines cut at their awaits, the producer table, and which subscriptions it holds |
| `EventConsumer`, `ConsumerHistory` | a browser's consumer on a web node, and what a whole conversation leaves behind |
| `RelayAgreement`, `Relaying` | consumers, the message stream and a relay together; notifications crossing any number of relays |
| `RelayManager` | hosts that advertise themselves, the connections to them, the poll pass |
| `SettingsCache`, `SettingsRegistry` | one process: memo, shared cache, rows, defaults; and the registry that says what to invalidate |
| `SettingsStaleness`, `SettingsKeys` | several processes and time; the key an encrypted cache entry is sealed under |
| `GroupDeletion` | deleting an inventory group and handing on its hosts and children |
| `SuperuserSync`, `ImplicitParents` | the superuser flag and the administrator role; role parents by definition |
| `RoleReconciliation`, `SamlMapping`, `SamlLogin` | a SAML login from attributes and maps to the user's roles |
| `LinkTree`, `RecursiveCopy` | deep copy along preserved one-to-many links |
| `Redaction`, `RedactedText`, `SerializerMeta`, `PemValidation`, `PemRoundTrip` | URI redaction, `Meta` merging, PEM text |

An object that the program updates in place is a class; the `ensures` of each of its methods equate its new
state with a pure function of the old one, and the lemmas over runs are about those functions. A coroutine is
a set of steps, one for each stretch between two awaits, so the lemmas over runs cover every interleaving.
What comes from outside (object access checks, urlsplit, base64, encryption, the clock, database order)
is a parameter, or an event with arbitrary content.

## What the code does that one might not expect

- A web node that subscribes to the group "metrics" by name makes a relay run two producers for that group, and a
  metrics notification crosses twice. This is the only group it can happen to, and no browser's group has that name.
- A request whose groups are malformed is refused after the session's groups were taken out of the session, so
  the consumer forgets groups it stays a member of, even past its disconnect, and relays keep serving them to it.
- A subscribe that reaches a producer between its decision to stop and the deletion of its entry is lost.
- A poll pass in which an advertised address has changed ends in a failed lookup: cleaning up the old
  connection also forgets the address. It also fails in the clean-up of a host iff the heartbeat listener has
  completed one of the same host since the pass's own clean-up of it started; a listener that is done before that
  does no harm.
- A poll pass that drops a closed connection forgets the host as well, so the host is connected to again only after
  its next heartbeat, even if one came just before the pass.
- A row holding null hides a field default from a direct read but not from a preload, so what a read serves
  depends on which of them filled the cache. Texts that look like the sentinels come back as empty collections.
- Invalidation follows declared dependencies for one level only, and any undeclared dependence goes stale. An
  invalidation before the commit (requests are atomic, `forail/settings/defaults/base.py:27`), while another process
  is filling the cache, or while another thread of the process is reading, leaves the old value.
- The entry that remembers which key sealed a cached value may expire before that value, when it was left by a
  row that is gone. A setting without a field default then cannot be decrypted.
- Deleting a group that is its own child, and has another parent, violates a foreign key and is undone.
- Team names are compared across all organizations when teams are created, so a wanted team comes to exist where it
  is wanted only if it has no namesake anywhere and the last stage to ask for the name asks for it there. An empty organization alias counts in
  the attribute stage and does not in the map stage.
- Adding the administrator role to a user who has it but lacks the flag does not set the flag.
- `is_implicit_parent` raises where `_resolve_parent_roles` gives nothing (a missing attribute, no definition), and
  says no to singleton roles other than two, which the other one resolves.
- A replacement that ends the text moves the redaction index back to the last character. Only the first occurrence
  of a user name and the first two of a password in a URI are replaced.
- Malformed base64 text in the first object that is not accepted raises an error that `validate_pem` does not catch.
  It is the outcome `Crash` here. Groups that are no mapping raise in a consumer after the session's were taken out.

## Model

| member | source | states |
|---|---|---|
| RelayConnection.WebsocketRelayConnection.constructor | forail/main/wsrelay.py:118-124 | A connection starts with the metrics producer and its permanent subscriber. |
| RelayConnection.WebsocketRelayConnection.OnSubscribe | forail/main/wsrelay.py:140-150 | The loop over the groups starts missing producers and adds the origin to existing entries, as the fold that SubscribeAllHolds characterises. |
| RelayConnection.WebsocketRelayConnection.OnUnsubscribe | forail/main/wsrelay.py:152-160 | The loop takes the origin out of existing entries and ignores missing ones. |
| RelayConnection.WebsocketRelayConnection.OnFrame | forail/main/wsrelay.py:125-160 | One turn of the message loop, with its error paths: undecodable text is skipped, an error or a payload without its keys ends the loop, a binary frame acts on the last payload again. |
| RelayConnection.WebsocketRelayConnection.OnOpened | forail/main/wsrelay.py:162-168 | With a channel in the group the producer starts listening. |
| RelayConnection.WebsocketRelayConnection.OnOpenFailed | forail/main/wsrelay.py:166-211 | Without a channel the producer ends in its `finally` block and its entry stays. |
| RelayConnection.WebsocketRelayConnection.OnFailed | forail/main/wsrelay.py:167-209 | Any other exception takes the producer to the discard of its channel, with its entry still there. |
| RelayConnection.WebsocketRelayConnection.OnDiscardFailed | forail/main/wsrelay.py:209-211 | A discard that raises leaves the entry there for good. |
| RelayConnection.WebsocketRelayConnection.OnReceived | forail/main/wsrelay.py:168-197 | Only a flagged message is sent on, without its flag, and only while the websocket is open. |
| RelayConnection.WebsocketRelayConnection.OnTimedOut | forail/main/wsrelay.py:186-192 | An idle producer decides to stop iff its entry has no subscribers. |
| RelayConnection.WebsocketRelayConnection.OnDiscarded | forail/main/wsrelay.py:209-211 | After the await the producer deletes the entry of its name, whatever it holds by then. |
| RelayTable.NamesAreDistinct | forail/main/wsrelay.py:142-146 | For one host, producer names determine groups and never collide with the metrics entry. |
| RelayTable.ProducerTableOwnership | forail/main/wsrelay.py:123-211 | In every reachable state each entry belongs to exactly one unended task, table lookups of producers succeed, and a deletion removes the task's own entry. |
| RelayTable.TwoProducersIffMetricsSubscribed | forail/main/wsrelay.py:120-150 | In every reachable state two unended producers serve one group iff it is "metrics" and both its entries are in the table. |
| RelayTable.OneProducerUnlessMetricsNamed | forail/main/wsrelay.py:140-150 | In no run whose processed messages never subscribe to "metrics" by name does any group have two producers. |
| RelayTable.NamingMetricsStartsSecondProducer | forail/main/wsrelay.py:120-150 | In every run, a message that does gives the group two producers iff the connection's own is still there. |
| RelayTable.SecondProducerIsReached | forail/main/wsrelay.py:120-150 | One frame from the start is enough. |
| RelayTable.StuckOnlyByLayerFailure | forail/main/wsrelay.py:162-211 | A producer keeps its entry without running only if a channel-layer call raised in it. |
| RelayTable.LayerFailureSticks | forail/main/wsrelay.py:166-211 | And if one did, the entry stays for ever with a task that runs no more. |
| RelayTable.FrameEndsLoopIff | forail/main/wsrelay.py:125-160 | Exactly which frames end the message loop, and what text is left to be repeated. |
| RelayTable.BinaryRepeatsText | forail/main/wsrelay.py:125-160 | A binary frame does once more what the last text did. |
| RelayTable.SubscribeAllHolds | forail/main/wsrelay.py:140-150 | Exactly the named groups gain exactly the origin; order and repetition are immaterial; no other entry changes. |
| RelayTable.UnsubscribeAllHolds | forail/main/wsrelay.py:152-160 | Exactly the named groups lose exactly the origin; no entry goes. |
| RelayTable.MetricsKeepsItsSubscriber | forail/main/wsrelay.py:120-160 | Unless it fails, the metrics producer keeps its entry and subscriber through every run. |
| RelayLedger.SubscriptionsExact | forail/main/wsrelay.py:140-211 | In every run the table holds a subscription iff the messages processed ask for it and no deletion has dropped it since. |
| RelayLedger.LossNeedsLateArrivalOrFailure | forail/main/wsrelay.py:186-211 | Without a late subscribe of a consumer and without a producer failing while it serves that consumer, the table holds it for exactly what its messages ask for, whatever befalls other consumers. |
| RelayLedger.DeletionLosesWhatItHolds | forail/main/wsrelay.py:209-211 | A deletion loses precisely the subscriptions its entry still holds. |
| RelayLedger.LateArrivalIsLost | forail/main/wsrelay.py:186-211 | Time out, subscribe, delete: the group is left unserved. |
| EventConsumer.GroupNameIsNeverMetrics | forail/main/consumers.py:180 | No group a browser can ask for is the one the relays serve on their own. |
| EventConsumer.Socket.ReceiveJson | forail/main/consumers.py:163-215 | Session, layer membership, broadcasts, errors and reply of every request, including refused tokens, refused objects, malformed groups and groups that are no mapping. |
| EventConsumer.Socket.Disconnect | forail/main/consumers.py:139-150 | The session's groups are left and announced. |
| ConsumerHistory.MembershipInClosedForm | forail/main/consumers.py:173-213 | Over every history, the session holds the groups still current and the layer those plus exactly the groups a malformed request made the consumer forget. |
| ConsumerHistory.DisconnectCleansUpIffNothingForgotten | forail/main/consumers.py:139-191 | Disconnecting leaves no membership iff no group was forgotten. |
| ConsumerHistory.EventKeepsSessionEqualIff | forail/main/consumers.py:173-191 | An event parts session and membership iff it is malformed and meets groups. |
| ConsumerHistory.EventsApplyActions | forail/main/consumers.py:139-215 | What a request or a disconnect does to session and membership is the action it is classified as. |
| ConsumerHistory.DeniedIffNoAccess | forail/main/consumers.py:173-191 | A well-formed request is sent an error for exactly the objects it names and the user may not see. |
| ConsumerHistory.MembershipIsAuthorized | forail/main/consumers.py:151-215 | Over every conversation a consumer is a member only of groups that a request with its own token named through an object the user might see, and of all those the last well-formed one named. |
| RelayAgreement.EventsAnnounce | forail/main/consumers.py:139-215 | The broadcasts of a request or a disconnect are those of its action. |
| RelayAgreement.RelayHoldsSessionAndForgotten | forail/main/consumers.py:139-215 | In every interleaving, once a consumer's messages are processed the relay holds it for exactly its session's groups and those it was made to forget, less what deletions dropped. |
| RelayAgreement.ForgottenSinceConnected | forail/main/consumers.py:173-191 | For a consumer that came after the relay the forgotten groups are exactly those it is a member of outside its session. |
| RelayAgreement.RelayBetweenSessionAndMembership | forail/main/consumers.py:139-215 | So what the relay holds lies between the session, less what was dropped, and the channel-layer membership. |
| RelayAgreement.SubscriptionAgreement | forail/main/consumers.py:139-215 | If no malformed request of the consumer met groups, no subscribe of its own came late and no producer failed while it served it, the relay holds exactly the session's groups, however late it connected and whatever other consumers did or lost, and none after a disconnect. |
| Relaying.ForwardedAtMostOnce | forail/main/wsrelay.py:170-197 | Over any number of relays on shared or separate layers, what crosses a relay was emitted on that relay's own channel layer, to the group it crosses under, and never carries the flag; a notification to any group but "metrics" crosses each relay at most once. |
| Relaying.NoSecondHop | forail/main/wsrelay.py:170-197 | All relays a notification crosses start on one layer, so after crossing to another layer it crosses no relay that starts there. |
| Relaying.ForwardedUnlessLeft | forail/main/wsrelay.py:167-197 | Nothing is lost: over every history, a notification emitted to a group that a producer is listening to is ever after in its mailbox or forwarded under its group, or the producer has left its loop. |
| Relaying.ForwardedExactlyOnce | forail/main/wsrelay.py:167-197 | Once such a producer has worked off its mailbox, the notification has crossed exactly once, unflagged (groups other than "metrics"). |
| Relaying.WhyProducersLeave | forail/main/wsrelay.py:170-207 | A producer leaves only on an exception, when idle without subscribers, or on taking a flagged message to a closed websocket; on an open one it goes on. |
| Relaying.ReinjectReaches | forail/main/consumers.py:104-111 | What is read off a websocket goes to every listening producer of the group on that side's layer and to nobody else; the group "metrics" goes to none. |
| Relaying.AllForwardedAtMostOnce | forail/main/wsrelay.py:120-197 | So does every notification while no subscribe names "metrics", and no more cross than were emitted. |
| Relaying.MetricsCrossesTwice | forail/main/wsrelay.py:120-197 | A run with such a subscribe in which one metrics notification crosses twice. |
| Relaying.RelayingTerminates | forail/main/consumers.py:104-111 | From any reachable state, forwarding and re-sending stop after a bounded number of events, even on one shared layer. |
| RelayManager.Manager.OnHeartbeat | forail/main/wsrelay.py:221-260 | The effect of every heartbeat, and the local host stays out of both tables. |
| RelayManager.Manager.CleanupOfflineHost | forail/main/wsrelay.py:266-291 | Both the connection and the known address go. |
| RelayManager.Manager.Decide | forail/main/wsrelay.py:332-351 | The loops compute exactly the hosts to drop and to connect to. |
| RelayManager.Manager.ConnectAll | forail/main/wsrelay.py:360-364 | Connections to all hosts if all are known, else the lookup of an unknown one fails. |
| RelayManager.Manager.PollPass | forail/main/wsrelay.py:328-364 | A pass succeeds iff no address changed; then connections and known hosts coincide at advertised addresses and kept connections were live. |
| RelayManager.LocalHostNeverAppears | forail/main/wsrelay.py:240-260 | In no interleaving of heartbeats and passes is the local host known or connected to. |
| RelayManager.PassReconcilesIffNoAddressChanged | forail/main/wsrelay.py:328-364 | A pass cut at its awaits, with connections coming and going, crashes iff an address had changed and otherwise reconciles. |
| RelayManager.HeartbeatIsConnected | forail/main/wsrelay.py:247-364 | A host that comes online is connected to by the next pass at its advertised address, or at its name without one, unless the pass crashes or was dropping its closed connection. |
| RelayManager.CleanupCrashesIffListenerCleaned | forail/main/wsrelay.py:266-291 | Over every run, a pass crashes in its clean-up of a host iff the heartbeat listener has completed one of that host since the pass's own clean-up of it started. |
| RelayManager.CleanupCrashIsReached | forail/main/wsrelay.py:240-291 | A run from the start that crashes so. |
| RelayManager.ListenerOnlyLogs | forail/main/wsrelay.py:256-291 | In the other order nothing crashes and the host is cleaned up. |
| RelayManager.ListenerBeforeStartIsHarmless | forail/main/wsrelay.py:273-291 | A listener that is done between the pass's decision and the start of its clean-up does no harm: the pass finds no connection and cleans up without a crash. |
| SettingsCache.CacheRoundTrip | forail/conf/settings.py:211-221 | Encoding and decoding a cached value is the identity iff it does not look like an empty-collection sentinel. |
| SettingsCache.SettingsWrapper.PreloadCache | forail/conf/settings.py:284-345 | The two expiry checks and the bulk fill from rows and defaults. |
| SettingsCache.SettingsWrapper.GetLocalValue | forail/conf/settings.py:347-412 | Read through the shared cache, with what it stores. |
| SettingsCache.SettingsWrapper.GetAttribute | forail/conf/settings.py:421-441 | Read through the memo, falling back on the file default. |
| SettingsCache.SettingsWrapper.HandleSettingChange | forail/conf/signals.py:20-36 | Drop the key and its dependents, forget the memo, read them again. |
| SettingsCache.SettingsWrapper.SetLocal | forail/conf/settings.py:443-464 | Read-only settings and values that conversion or validation refuses raise; an equal value changes nothing. |
| SettingsCache.SettingsWrapper.DelLocal | forail/conf/settings.py:473-480 | Read-only settings are refused; a deleted row is invalidated. |
| SettingsCache.CachedReadIsLookup | forail/conf/settings.py:284-441 | After any run of reads, writes, deletions, waits and evictions, of the preload marker too, a cached read equals the uncached look-up, for plain values and complete dependencies. |
| SettingsCache.RowIsServed | forail/conf/settings.py:347-412 | After any run a setting with a row is served from the row, as validated, or from the files if it is invalid; read-only settings have no row but the installation id. |
| SettingsCache.DefaultIsServed | forail/conf/settings.py:376-386 | One without a row is served from its field's default. |
| SettingsCache.FileDefaultIsServed | forail/conf/settings.py:434-441 | One with neither, or not registered, from the settings files. |
| SettingsCache.RowsAfter | forail/conf/settings.py:443-480 | The rows after each operation. |
| SettingsCache.WrittenIsRead | forail/conf/settings.py:347-464 | Read your write: after any run, what was just written is served in its stored form, as validated. |
| SettingsCache.RemovedFallsBack | forail/conf/settings.py:347-480 | After a removal the field's default is served, or that of the files. |
| SettingsCache.PreloadsOncePerTimeout | forail/conf/settings.py:284-345 | One preload a minute for a process, and none while another process's is in force; a preload caches every setting that can have a row. |
| SettingsCache.ChangeReadsAgain | forail/conf/signals.py:20-36 | After a change exactly the setting and its dependents are in the memo. |
| SettingsCache.StalenessWearsOff | forail/conf/settings.py:345-433 | Sixty seconds after any run a plain setting is read as it is, whatever the declarations miss. |
| SettingsCache.ColdReadIsLookupIffPlain | forail/conf/settings.py:317-338 | The plainness condition is exact for a first read. |
| SettingsCache.UndeclaredDependenceGoesStale | forail/conf/signals.py:20-36 | Completeness is needed: any default that changes with a row that does not name its key is served stale after a read and a write. |
| SettingsCache.TwoLevelDependencyGoesStale | forail/conf/signals.py:24-29 | In particular a dependency through another setting is not invalidated. |
| SettingsRegistry.Registry.Register | forail/conf/registry.py:37-59 | Refusals, the order of registration, and the dependency map inverts the declarations. |
| SettingsRegistry.Registry.Unregister | forail/conf/registry.py:61-64 | The setting leaves the registry and every set of dependents. |
| SettingsRegistry.Registry.GetDependentSettings | forail/conf/registry.py:72-73 | Exactly the registered settings that declare the given one. |
| SettingsRegistry.Registry.GetRegisteredSettings | forail/conf/registry.py:89-105 | Exactly the settings asked for, in the order of registration. |
| SettingsRegistry.ReadOnlySplits | forail/conf/registry.py:89-105 | Queries for read-only and for other settings split a query in two; only the installation id is in both. |
| SettingsRegistry.CategoriesGive | forail/conf/registry.py:89-105 | What each category gives, with the two that have a second name. |
| SettingsRegistry.RegistryMakesInvalidationComplete | forail/conf/registry.py:52-73 | Settings that declare what their defaults read make the invalidation of one level complete. |
| SettingsStaleness.BoundedStaleness | forail/conf/settings.py:345-433 | Under every interleaving of processes a served value was the looked-up value less than 65 seconds ago, plus twice the time a read may dawdle. |
| SettingsStaleness.OwnWriteIsSeen | forail/conf/signals.py:20-32 | After invalidating a committed write a process serves that write or a later one, if no older fill and no older read of its own was in flight. |
| SettingsStaleness.FillInFlightUndoesInvalidation | forail/conf/signals.py:29-32 | An older fill in flight brings its value back for any process whose memo has no entry for the key. |
| SettingsStaleness.ReadInFlightUndoesClearing | forail/conf/settings.py:421-433 | A read in flight in another thread brings its value back to a memo without the key; an entry made meanwhile wins. |
| SettingsStaleness.InvalidationIsFinalIff | forail/conf/signals.py:29-32 | An invalidation is final, in every continuation, iff neither is in flight. |
| SettingsStaleness.InvalidatingBeforeCommitLeavesOldValue | forail/conf/signals.py:39-45 | The order commit, then invalidate, is needed. |
| SettingsKeys.CachedTextIsFetched | forail/conf/settings.py:148-178 | In every reachable state of a setting with a default, what is cached opens under the key a reader picks now, to exactly what an uncached read would find. |
| SettingsKeys.SavedIsRead | forail/conf/models.py:36-61 | The round trip: from any state and with any default a save does not fail, keeps or makes the primary key, leaves a row that opens to the text under its own key only, and the next read answers with the text. |
| SettingsKeys.LastSavedIsRead | forail/conf/settings.py:148-393 | The last text saved is what every later read answers, through any reads, preloads, expiries and evictions. |
| SettingsKeys.DeletedIsUnset | forail/conf/settings.py:376-386 | After a deletion a read answers with the default, or with nothing. |
| SettingsKeys.NothingInClear | forail/conf/models.py:36-61 | In no reachable state does the row or the cache hold a non-empty text in clear. |
| SettingsKeys.Backend.GetLocal | forail/conf/settings.py:347-393 | Read of an encrypted setting with the key picked from the id entry or the row. |
| SettingsKeys.Backend.SaveSetting | forail/conf/models.py:36-61 | The two-phase save, with the handler after each phase. |
| SettingsKeys.StaleIdSealsMarker | forail/conf/settings.py:390-393 | A run in which a value is sealed under a stale id that expires first. |
| SettingsKeys.AlwaysDecryptsIffDefault | forail/conf/settings.py:148-393 | Over every run, no read fails to decrypt iff the field has a default. |
| GroupDeletion.InventoryStore.SaveRelated | forail/main/signals.py:306-314 | Parents, hosts and children are remembered. |
| GroupDeletion.InventoryStore.MigrateChildren | forail/main/signals.py:317-333 | All surviving parents gain the hosts and children, unless a child is gone. |
| GroupDeletion.InventoryStore.DeleteGroup | forail/main/signals.py:306-343 | A deletion fails iff the group is its own child and has another parent. |
| GroupDeletion.DescentPreserved | forail/main/signals.py:306-343 | Surviving groups descend from each other exactly as before. |
| GroupDeletion.HostsPreserved | forail/main/signals.py:306-343 | A surviving group reaches exactly the hosts it reached before, in any graph. |
| GroupDeletion.DeletionsPreserveReachability | forail/main/signals.py:306-343 | Any deletions in any order, in any graph, keep for every survivor the hosts it reached and its surviving descendants, if none fails. |
| GroupDeletion.DeletionsKeepAcyclic | forail/main/signals.py:306-343 | In an acyclic graph none fails, and the graph stays acyclic. |
| SuperuserSync.Database.OnRelationChanged | forail/main/signals.py:166-183 | The handler for both sides of the relation; the chain of handlers it can set off ends. |
| SuperuserSync.Database.OnUserSaved | forail/main/signals.py:150-163 | A saved flag reaches the membership, through the role's side of the relation. |
| SuperuserSync.Database.AddMembers | forail/main/signals.py:166-176 | Adding from the role's side reports, and flags, only those who were no members. |
| SuperuserSync.Database.ClearMembers | forail/main/signals.py:166-176 | Clearing from the role's side takes the flag from every user. |
| SuperuserSync.Database.AddRoles | forail/main/signals.py:166-183 | Adding from the user's side saves the flag, through both handlers. |
| SuperuserSync.Database.RemoveRoles | forail/main/signals.py:166-183 | So does removing. |
| SuperuserSync.AgreementOverRuns | forail/main/signals.py:150-183 | After any run of saves, additions, removals and clearings from either side the flag holds exactly for the members. |
| SuperuserSync.OpDoesWhatItSays | forail/main/signals.py:150-183 | Each operation changes exactly the memberships asked for, and no flag of a user whose membership of the role stays. |
| SuperuserSync.WhichOperationsRepair | forail/main/signals.py:150-183 | A save always mends a disagreement, adding exactly when the flag was set or the role missing, removing and clearing always. |
| ImplicitParents.IsImplicitParent | forail/main/fields.py:177-212 | The walk over the paths, with its early answers and the attribute error. |
| ImplicitParents.ResolveParentRoles | forail/main/fields.py:365-387 | The resolved set over all paths, or the exception. |
| ImplicitParents.WalksEndAlike | forail/main/fields.py:149-210 | The recursive and the iterative walk along a path end at the same place, on every input. |
| ImplicitParents.PathAgreesIffRegular | forail/main/fields.py:149-210 | The two computations agree on a path about all roles iff its attributes exist and it ends at a role or nowhere, or names a known singleton. |
| ImplicitParents.ImplicitIffResolved | forail/main/fields.py:177-387 | For regular definitions a role is an implicit parent iff it is resolved. |
| ImplicitParents.OnlyAuditorHasSystemParent | forail/main/fields.py:177-187 | Of the roles without an object only the auditor has a parent by definition, the administrator. |
| ImplicitParents.RoleTable.UpdateForInstance | forail/main/fields.py:215-238 | The loop applies the differences, and reports exactly the roles that gain and lose. |
| ImplicitParents.UpdateIsExact | forail/main/fields.py:215-238 | Other parents stay, and implicit parents are all parents iff those kept were. |
| ImplicitParents.UpdateIsIdempotent | forail/main/fields.py:215-238 | A second update changes and reports nothing. |
| RoleReconciliation.User.Reconcile | forail/sso/common.py:20-100 | Exactly the roles asked for are held, those asked away are not, all others are as before, though decisions use a stale snapshot. |
| RoleReconciliation.ApplyIsExact | forail/sso/common.py:46-100 | The stale snapshot does no harm while no role is asked both ways. |
| RoleReconciliation.ReconcilingTwiceIsOnce | forail/sso/common.py:20-100 | A second reconciliation changes nothing. |
| SamlMapping.Pipeline.FromExpression | forail/sso/saml_pipeline.py:38-63 | Hold if any expression matches the user, else do not hold or leave alone. |
| SamlMapping.Pipeline.UpdateOrgsByAttribute | forail/sso/saml_pipeline.py:115-154 | Clearing by flag, then granting by attribute value and alias. |
| SamlMapping.Pipeline.UpdateTeamsByAttribute | forail/sso/saml_pipeline.py:157-200 | The statements about teams and the teams to create. |
| SamlMapping.Pipeline.UpdateOrgs | forail/sso/saml_pipeline.py:66-90 | The organization map, entry by entry, on what was said before. |
| SamlMapping.Pipeline.UpdateTeams | forail/sso/saml_pipeline.py:93-112 | The team map, including teams created without a statement. |
| SamlMapping.OrganizationWishInClosedForm | forail/sso/saml_pipeline.py:66-154 | Any True wins; else the last map entry decides, even by leaving the role alone; else the attribute stage. |
| SamlMapping.WantedOrganizationsAreToBeCreated | forail/sso/saml_pipeline.py:66-154 | Every organization with a wanted role is listed for creation. |
| SamlMapping.WantedTeamsAreToBeCreated | forail/sso/saml_pipeline.py:93-200 | Every team with wanted membership is listed for creation, maybe elsewhere. |
| SamlMapping.LastStatementDecides | forail/sso/saml_pipeline.py:93-200 | The last statement about a team is the one that counts. |
| SamlLogin.MapUser | forail/sso/saml_pipeline.py:21-29 | The four stages in their order on an empty state. |
| SamlLogin.Tower.CreateOrgAndTeams | forail/sso/common.py:103-149 | Exactly the missing organizations and the teams without a namesake are created, if that is allowed. |
| SamlLogin.Tower.PopulateUser | forail/sso/saml_pipeline.py:17-35 | The end state of a login for every organization and team, and exactly which teams exist where afterwards; what is created has its roles. |
| SamlLogin.CreationInClosedForm | forail/sso/common.py:116-149 | A team exists in an organization afterwards iff it did before, or it has no namesake and the last stage to ask for its name asks for it there. |
| SamlLogin.NamesakePreventsCreation | forail/sso/common.py:139-144 | A login that wants a team which a namesake elsewhere keeps from existing. |
| SamlLogin.ReconciledIsLoginOutcome | forail/sso/saml_pipeline.py:17-35 | Reconciling to the final state gives that end state. |
| SamlLogin.MapGrantIsHeld | forail/sso/saml_pipeline.py:38-90 | Whoever an expression of the organization map takes, by user name or e-mail address, holds the role after the login, whatever other entries say. |
| SamlLogin.AttributeGrantIsHeld | forail/sso/saml_pipeline.py:115-154 | So does everybody with an attribute value that stands for the organization, by name or alias. |
| SamlLogin.AttributeStageTakes | forail/sso/saml_pipeline.py:115-154 | And nobody else, in an existing organization the map does not speak about, unless the role's flag is false. |
| SamlLogin.LastEntryDecides | forail/sso/saml_pipeline.py:38-90 | A role nobody grants is taken away or left alone as the last entry about the organization says. |
| SamlLogin.LastTeamEntryDecides | forail/sso/saml_pipeline.py:93-112 | The last entry about a team takes the user, or refuses, or says nothing. |
| SamlLogin.TeamAttributeDecides | forail/sso/saml_pipeline.py:157-200 | The last team-organization entry decides by whether the attribute lists its team, under the team's alias. |
| LinkTree.OneParent | forail/api/generics.py:957-960 | In a tree of links each node is found from one node only. |
| RecursiveCopy.CopyView.Create | forail/api/generics.py:893-943 | The new row, field by field: blocked fields are dropped, references to the old parent redirected, preserved ones kept. |
| RecursiveCopy.CopyView.CopyModelObj | forail/api/generics.py:893-961 | The recursion copies the whole tree below an object although its queries see rows added meanwhile. |
| RecursiveCopy.NoNewKid | forail/api/generics.py:957-960 | No new row turns up among the children of an object still to be copied. |
| RecursiveCopy.CopyIsOneToOne | forail/api/generics.py:956-961 | The returned map is one to one from the tree onto new rows; all other rows are as they were. |
| RecursiveCopy.CopyFollowsPreserved | forail/api/generics.py:902-961 | The copied objects are the first one and exactly the children found from copied ones through accessors that are preserved and not blocked. |
| RecursiveCopy.CopyKeepsFields | forail/api/generics.py:893-943 | Field by field over the copied tree: what is dropped, decrypted, redirected to the parent's copy, kept, or set to the user who copies. |
| RecursiveCopy.CopyKeepsChildren | forail/api/generics.py:902-961 | The children of a copy are exactly the copies of the children, or all are lost iff the field that refers to the parent is blocked. |
| RecursiveCopy.LoneObjectIsReady | forail/api/generics.py:893-961 | An object that nothing refers to may be copied. |
| Redaction.RemoveSensitive | forail/main/redact.py:13-60 | The loop ends on every text, computes the rounds one by one, and keeps the white space and every token without a colon. |
| Redaction.Step | forail/main/redact.py:16-58 | One round brings the index nearer to the end, however long the replacement. |
| Redaction.Redact | forail/main/redact.py:38-54 | The replacement inside the match and the clamped index. |
| Redaction.ShapeThroughReplacement | forail/main/redact.py:13-60 | Replacing the end of a token that holds a colon keeps all gaps and other tokens. |
| RedactedText.ReplaceIsCutAndJoin | forail/main/redact.py:42-46 | Replacing cuts at the first occurrences and joins with the marker. |
| RedactedText.PartsAreFree | forail/main/redact.py:42-46 | What was cut is left in no part, unless in the last one after as many occurrences as were asked for. |
| RedactedText.UriInText | forail/main/redact.py:13-60 | In terms of the splitter alone, for the first URI of any text: user name and password are replaced, once and up to twice; a network location of two parts counts as both; a refused one becomes the marker; one without credentials is passed over; and the rest of the text is redacted in the same way. |
| RedactedText.CredentialsInText | forail/main/redact.py:13-60 | For instance a URI after words, with a scheme of up to twenty characters and credentials. |
| RedactedText.NoUriNoChange | forail/main/redact.py:13-60 | A text in which nothing looks like a URI stays as it is. |
| RedactedText.SingleUri | forail/main/redact.py:13-60 | A text that is one URI with credentials becomes it with its credentials replaced. |
| RedactedText.CleanShifts | forail/main/redact.py:13-60 | What lies before the index is out of the loop's reach. |
| SerializerMeta.Meta.Update | forail/api/serializers/base.py:204-231 | Merging one list into the metadata, as a base or as the class's own. |
| SerializerMeta.Meta.New | forail/api/serializers/base.py:244-251 | Bases from last to first, then the own list, or the merged one again without effect. |
| SerializerMeta.FieldsOfHierarchy | forail/api/serializers/base.py:204-251 | Over every hierarchy the list has no repeats and no markers and holds exactly the names listed or inherited and not excluded. |
| SerializerMeta.ExclusionIsUndoneByAnotherBase | forail/api/serializers/base.py:217-231 | An exclusion binds its own class only. |
| SerializerMeta.DistinctKeepsFirstOrder | forail/api/serializers/base.py:227-231 | Names keep the order of their first occurrences. |
| SerializerMeta.MergedBasesKeepOrder | forail/api/serializers/base.py:244-251 | Inherited names come in the order of their first occurrence, the last base first. |
| PemValidation.CollectBase64 | forail/main/validators.py:93-107 | The lines that are neither empty nor headers nor their continuations, joined. |
| PemValidation.FindObjects | forail/main/validators.py:68-124 | The loop ends on every text; objects, errors and counts. |
| PemValidation.ValidatePem | forail/main/validators.py:62-156 | Objects of the text with their key types and whether they are encrypted, or the first error, then the limits. |
| PemRoundTrip.UpToTailOfBody | forail/main/validators.py:53-57 | The match stops at the first end line after the text. |
| PemRoundTrip.MatchOfBlock | forail/main/validators.py:53-57 | The expression takes a printed object apart into its label, its text and the rest. |
| PemRoundTrip.JoinedSplits | forail/main/validators.py:93-107 | Splitting printed base64 lines gives the text back. |
| PemRoundTrip.RoundTrip | forail/main/validators.py:50-156 | Any supported objects printed in the strict form of section 3 of RFC 7468, with any line break, are read back in order, unless the limits refuse their numbers. |
| PemRoundTrip.PrintedIsAcceptedIff | forail/main/validators.py:125-156 | Printed objects are accepted iff their numbers are within the limits, and otherwise which complaint comes first. |
| PemRoundTrip.HeadersAreSkipped | forail/main/validators.py:93-107 | Headers, their continuations and empty lines are no part of the base64 text that follows. |
| PemRoundTrip.AlgorithmLabel | forail/main/validators.py:74-85 | The label of a private key with its algorithm gives a key of that type, or is unsupported. |
| PemRoundTrip.BareLabel | forail/main/validators.py:74-85 | So do the two labels without an algorithm. |
| PemRoundTrip.EncryptionMarks | forail/main/validators.py:112-122 | When a key counts as encrypted: by its first bytes, its label, or a word in its text. |
| PemRoundTrip.AcceptedIsSound | forail/main/validators.py:62-156 | Every accepted text gives supported objects that decode to something, in numbers within the limits. |
| PemRoundTrip.CrashIff | forail/main/validators.py:93-114 | An uncaught error escapes iff the first object that is not accepted has a supported label and malformed base64 text. |

## Left out

- Sockets, aiohttp, Redis, Postgres and HMAC: channel-layer calls succeed or fail as events say, deliveries are in order.
- Debug logging of undecodable payloads, which itself raises, statistics and log texts.
- RelayManager: a known host whose connection attempt is still pending counts as not connected, as in the code; retry timing is not modelled.
- EventConsumer: the connect handshake; a request that raises leaves no further trace of the connection it ends.
- SettingsCache: a refused write is one outcome; the set of read-only settings is fixed, so the marking of settings from files at the first preload is not modelled; there is at most one global row per key; database errors and user settings are out.
- SettingsKeys: values that already look encrypted, null rows, and eviction of the id entry other than by time are out.
- SettingsRegistry: construction of fields from a registration, the categories list and the validation functions.
- GroupDeletion: bulk removal of an inventory and the update of computed fields.
- SuperuserSync: the newer role system is inactive; writes that bypass signals and deletion of users are out.
- ImplicitParents: singleton roles are found by a total function instead of being created on demand; many-to-many managers are objects without the attributes a path asks for.
- SamlMapping: organization roles other than the three; a team map entry whose organization is present but null; errors of a concurrent creation.
- RecursiveCopy: many-to-many links, which are kept at the top object only, the top object itself, and the extra copy of approval templates under workflow nodes; the height of the tree is a ghost argument, any height will do.
- Redaction: the regular expression is its one match (up to twenty word characters, a colon, the run of other characters); character classes, the marker and `urlsplit` are parameters.
- SerializerMeta: attributes that are not lists of names; bases whose `Meta` was not made by the metaclass.
- PemValidation: the regular expression is a deterministic function that takes its alternatives in the same order; message texts.
- `deep_copy_model_obj`, `rebuild_role_ancestor_list`, `encrypt_field` and `decrypt_field` are not part of this model.
- Views, URL tables, renderers and the other serializers: plumbing.
