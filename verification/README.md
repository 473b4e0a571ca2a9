# OmniBinder control plane, framing and event loop in Dafny

OmniBinder is a C++ service bus. Its service manager is one event loop that owns
about a dozen tables keyed by control connections: the service registry, watch
groups with two indexes, the topic table with reverse indexes, reference counts
and limits, runtime sessions, and the process and watcher tables. Every handler
sends messages. Any send may fail and close its connection, and closing sends
further messages, so handlers are re-entered from within themselves.

The project models that state machine, the wire framing and codecs beneath it,
and the event loop's cross-thread, timer and reply-waiting protocols, and proves
what each of them keeps in every run. `dafny verify dfyconfig.toml` verifies all
of it.

## How it is built

- **Tables.** `ServiceRegistry`, `WatchNotifier` and `TopicManager` are classes with
  the program's own nested maps, indexes and counters. Each carries one flat
  relation as its abstract value, and every operation is specified on that.
- **Cascades.** `ControlPlane` takes the whole state as a value. `Shrinks(s, t, a)` says
  what any cascade does: some connections died, the tables are what *purging*
  exactly these leaves, the others were only sent messages. `ServiceManagement`
  has the re-entrant methods; they end because a connection leaves `clients`
  before anything is sent on its behalf.
- **Invariant.** `StateInvariant.Inv` holds between events: no table mentions a closed
  connection, process lists and watcher tables are exact, sessions are unique,
  publishers belong to owners, subscribers have heard of matching publishers, and
  watchers know what is registered. `Sound` adds that each object represents its
  part and that each connection's bytes add up to its messages.
- **Handlers.** Each handler states its effect as a cascade from an explicitly given
  state, what it replied, and that soundness is kept. `Transitions.Next` is what an
  event does, as a relation between states; `Runs` proves one step and any sequence
  of steps to follow it; how the transport answers each send is part of a run.
- **Consequences.** `Guarantees` says what the parties may rely on, `Notifications` that
  it reaches them in the bytes they read, `Departures` who is closed and why,
  `Identities` which session entries are current, `Staleness` has the runs that leave
  watchers with wrong news. `Smooth` means that from now on every send succeeds.
- **History.** Fields `taken`, `frames`, `since`, `met`, `clean`, `due`, `log` and `order` record what
  happened so that statements can speak of it. No decision depends on them.
- **Framing.** `Buffer` is the growable array with cursors; `StreamReader` reassembles
  frames from arbitrary chunks; `Frames.CutStream` is the one-shot parse it equals.
- **Event loop.** `EventLoop` is a state machine whose steps are single accesses of
  posting, stopping and owning threads. `Timers` and `SessionDeadlines` have the timer
  batches, `TimerIds` the exact condition under which deadlines can be trusted,
  `ReplyWait` the nested synchronous waits.

## Where code and documentation differ

The model follows the code.

- The logical identity of a service is (name, instance id); the host id is location
  only (service_manager/service_registry.cpp:108, against the comment at line 110).
- The session key is called unambiguous (include/omnibinder/types.h:112), but two
  runtimes share one exactly when a host or runtime id holds the separator byte.
- A hello repeated under another name leaves the session entry of the first one behind
  (service_manager/sm_diag.cpp:112, service_manager/service_manager_app.cpp:385-390).
  A later hello under that name then closes whatever connection has that number:
  `StrangerClosed` is such a run, and a hello closes only its own predecessor exactly
  when no such entry stands under its key (`ClosesOwnIff`).
- Functors run in the order of their posts, unless one polls again and lets later posts
  overtake the rest of its batch (`RunInOrderIff`).
- A publisher notification that does not fit in a frame is dropped without notice,
  so rendezvous holds exactly when it fits.
- `handleRegister` announces an instance online even if the reply just closed its
  connection (service_manager/sm_registry.cpp:36-43), and a session superseded with
  the same incarnation loses its services silently (service_manager/sm_diag.cpp:99-106).
  A watcher holds a stale "online" only after one of these two events
  (`StaleMeansStranded`); each has a run that ends so (`StaleRegistration`,
  `StaleReconnect`). No other event does it, whatever sends fail in it.
- A timer id can be reissued while it is listed, 2^32 - 1 armings later; from then on
  deadlines cannot be trusted (`ArmingIff`).
- Ring capacities are cut to 32 bits on the wire.
- A negotiated timeout can be below three intervals when the server has a cap or the
  interval exceeds a third of the 32-bit range.

## Model

| member | source | states |
|---|---|---|
| `Runs.Run` | service_manager/service_manager_app.cpp:233-307 | After any sequence of events and for any answers of the transport to the sends, the invariant of all tables (`Sound`) holds, as it did after every event before, and each event did what `Next` says of it; watchers hold no stale "online" as long as no event is one of the two that strand them; while sends succeed, exactly those connections leave that `Present` names |
| `Departures.LeavesIff` | service_manager/sm_registry.cpp:26-127 | While sends succeed a connection leaves in an event if and only if it is gone or overdue, its own heartbeat is wrong, another registers its last instance, or another claims its session |
| `Departures.StaysUnless` | service_manager/service_manager_app.cpp:165-307 | So a connection to which nothing of the kind happens stays through any run without send failures |
| `Guarantees.WatcherBelieves` | service_manager/sm_registry.cpp:319-339 | End to end: once nothing is pending, what a watcher last read of an instance in the bytes it got is online if the instance is registered, and, unless one of the two stranding events happened, only then |
| `Notifications.WatcherReads` | service_manager/sm_registry.cpp:319-339 | What a watcher last reads of an instance in the frames it received is what it was last told |
| `Identities.NextKeepsCurrent` | service_manager/sm_diag.cpp:92-133 | Every event keeps each session entry that of a live connection under its present key, unless it is a repeated hello under another key |
| `Identities.RekeyLeavesOver` | service_manager/sm_diag.cpp:92-133 | Such a hello, if its connection lives through it, does leave under the old key an entry for a connection that has another key by now |
| `Identities.RunFromStart` | service_manager/sm_diag.cpp:92-133 | So in any run from the start, as long as no such hello came, no hello of any connection finds a left-over entry |
| `Identities.StrangerClosed` | service_manager/sm_diag.cpp:92-111 | With one the property fails: a run in which a connection that never said hello is closed because it got the number of one that had used the name before |
| `Guarantees.NothingDangles` | service_manager/service_manager_app.cpp:374-431 | In every sound state purging a closed connection changes nothing: registry, watches, topics, process lists and both watcher tables do not mention it |
| `Guarantees.SurvivorsDetermineOutcome` | service_manager/service_manager_app.cpp:374-464 | Cascades are confluent: two cascades from one state with the same surviving connections end in the same tables and told each watcher of the same losses, in whatever order sends failed |
| `Guarantees.OfflineMeansLost` | service_manager/service_manager_app.cpp:399-404 | A surviving group is newly told that an instance is offline if and only if the instance was lost in the cascade and the group watches it |
| `Staleness.StaleMeansStranded` | service_manager/sm_registry.cpp:26-63 | In any run a live group last told online of an unregistered instance appears only after one of the two stranding events: no other event, failed sends included, makes one |
| `Staleness.HelloStrands` | service_manager/sm_diag.cpp:92-111 | A supersession under the same incarnation leaves every group that watches an instance of the closed connection stale |
| `Staleness.StaleRegistration` | service_manager/sm_registry.cpp:26-51 | A run from the start, for every acceptable instance: the reply fails, the announcement follows, and a live group ends last told online of an unregistered instance |
| `Staleness.StaleReconnect` | service_manager/sm_diag.cpp:92-111 | A run from the start, for every acceptable instance: the process reconnects under the same incarnation, with the same ending |
| `Guarantees.SessionsDiffer` | service_manager/sm_diag.cpp:92-133 | No two live connections that completed hello share a session key |
| `Guarantees.WatchersKnow` | service_manager/sm_registry.cpp:294-379 | A registered instance was last reported online to every live group watching it, whatever failed; unless one of the two stranding events happened, exactly the registered ones were |
| `Guarantees.RendezvousIffFits` | service_manager/sm_topic.cpp:129-178 | A live subscriber has been sent a live publisher on its topic, by service name and instance as its selector asks, whichever came first and since both were there, if and only if that notification fits in a frame |
| `Guarantees.NotificationMayNotFit` | service_manager/sm_topic.cpp:112-140 | The exception is real: an instance that registers in one frame and publishes in another can have a notification that fits in none |
| `Guarantees.SubscriberLearns` | service_manager/service_manager_app.cpp:433-485 | End to end: once nothing is pending, the parse of the bytes the transport took contains a notification in which the subscriber reads exactly that topic, description and hash |
| `Guarantees.PublicationsExact` | service_manager/sm_topic.cpp:112-130 | Every publisher slot belongs to the connection that owns the instance in the registry, and the publication index is exact, not only a superset |
| `ServiceManagement.ServiceManager.CloseClient` | service_manager/service_manager_app.cpp:374-431 | For every pattern of send failures the close terminates and equals one purge of all connections that died; the others were only sent messages; every process that only the dead watched and that still has a connection was told to stop watching; with notification every lost instance was reported offline to all who still watch it, without it nothing is said of the connection's own instances; only a close without notification of an owner clears `clean` |
| `ServiceManagement.ServiceManager.SendMessage` | service_manager/service_manager_app.cpp:433-464 | A message that serializes is appended to exactly this connection, or the connection is gone after a cascade; behind pending bytes it is gone exactly when the frame has no room; one that does not serialize changes nothing |
| `ServiceManagement.ServiceManager.NotifyGroup` | service_manager/sm_registry.cpp:330-339 | If the connection lives through it, the group was last told exactly this of the instance (which the watcher reads back, `Notifications.WatchNotifyRoundTrip`) |
| `ServiceManagement.ServiceManager.NotifyServiceWatch` | service_manager/sm_registry.cpp:319-328 | Every live group watching the instance was last told this state, although each send may close connections, watchers included |
| `ServiceManagement.ServiceManager.NotifyRemoved` | service_manager/service_manager_app.cpp:399-404 | All removed instances stay reported offline while later notifications cascade |
| `ServiceManagement.ServiceManager.EraseClient` | service_manager/service_manager_app.cpp:374-399 | Connection, own session key and owned services go together; the removed list names each owned instance once |
| `ServiceManagement.ServiceManager.ClearTables` | service_manager/service_manager_app.cpp:406-421 | What is cleared of watches, topics, processes and watched targets is what purging the one connection clears |
| `ServiceManagement.ServiceManager.RemoveTargetWatchers` | service_manager/sm_diag.cpp:332-350 | A vanished process leaves both watcher tables, and the two stay mirrors |
| `ServiceManagement.ServiceManager.SendToPid` | service_manager/sm_diag.cpp:22-44 | Every connection of the process that lives on, the requester aside, was sent the command, although the list changes while it is walked; handled if one lives on |
| `ServiceManagement.ServiceManager.StopTargetIfUnwatched` | service_manager/sm_diag.cpp:294-305 | The pair goes; the process is told to stop exactly when nobody else watches it |
| `ServiceManagement.ServiceManager.RemoveWatcherAndMaybeStopTargets` | service_manager/sm_diag.cpp:319-330 | All pairs of the watcher go from both tables, whatever else dies meanwhile, and every process that no other connection watched was sent the stop command on each of its connections that lives on |
| `Commands.HaltedTwice` | service_manager/sm_diag.cpp:294-305 | Two cascades in a row: whoever lost the last watcher in either was told to stop |
| `Commands.ReleasedByClose` | service_manager/sm_diag.cpp:319-330 | A closed connection leaves no process reporting to it that nobody else watches |
| `ServiceManagement.ServiceManager.NextProactiveSequence` | service_manager/service_manager_app.cpp:41-47 | Sequence numbers of the service manager count up from their base and start there again after wrap-around |
| `ControlPlane.PurgeTwice` | service_manager/service_manager_app.cpp:374-431 | Purging two groups of connections one after the other is purging their union, also where a process vanishes only with both |
| `ControlPlane.ShrinksTwice` | service_manager/service_manager_app.cpp:374-464 | Two cascades in a row are one cascade |
| `Closing.CloseAddsUp` | service_manager/service_manager_app.cpp:374-431 | Erasing, cascading, clearing and cascading again add up to one cascade that also closed the connection |
| `Closing.CloseIsSilent` | service_manager/service_manager_app.cpp:400-404 | Closing without notification tells nobody of the instances that went with the connection |
| `Invariants.ShrinksKeepsTables` | service_manager/service_manager_app.cpp:374-464 | A cascade keeps: no table mentions a closed connection, process lists exact, slots owned, watcher tables mirrored |
| `Invariants.ShrinksKeepsSessions` | service_manager/service_manager_app.cpp:380-390 | A cascade keeps every greeted live connection the one its session key stands for |
| `Invariants.ShrinksKeepsRendezvous` | service_manager/sm_topic.cpp:129-178 | A cascade leaves no subscriber owed a publisher |
| `Invariants.ShrinksKeepsTold` | service_manager/sm_registry.cpp:319-339 | What groups were last told of an instance survives cascades that are not about it |
| `Invariants.BuriedTwice` | service_manager/service_manager_app.cpp:399-404 | Instances lost in either of two cascades are reported offline to whoever still watches after both |
| `StateInvariant.Cascade` | service_manager/service_manager_app.cpp:374-464 | Any cascade keeps the whole invariant, with instances in transition excepted |
| `StateInvariant.DiedAnyway` | service_manager/sm_registry.cpp:295-306 | If a requester dies during its own request, the outcome is that of a cascade without the request |
| `RegistryHandlers.HandleRegister` | service_manager/sm_registry.cpp:10-64 | Refused exactly before hello, undecodable or with bad names; otherwise the instance belongs to this connection, a displaced connection publishes nothing under the name, and, while sends succeed, is closed if and only if it owned nothing else, and nobody else is closed; a move was reported offline and then online, and the reply came first; stale news can follow only if it was announced and the requester is gone, and does follow, for every group still watching, if the reply closed the requester |
| `RegistryHandlers.Announce` | service_manager/sm_registry.cpp:40-51 | A new or moved instance is last reported online everywhere if it is still registered, and also if it was gone before the announcement began; a moved one was reported offline before; an unchanged one is not announced |
| `RegistryHandlers.DropDisplaced` | service_manager/sm_registry.cpp:53-63 | The displaced connection loses its publications under the name; if it still owns an instance nothing else changes, if not it is closed; while sends succeed it is gone if and only if it owns nothing, and all others stay |
| `RegistryHandlers.RegisterSettles` | service_manager/sm_registry.cpp:26-63 | Whatever died meanwhile, a registration ends in a sound state once the instance, if still there, was announced |
| `RegistryHandlers.RegisterStrands` | service_manager/sm_registry.cpp:26-51 | If the reply closed the requester, every group still watching ends last told online of an instance that is not registered |
| `RegistryHandlers.RenewedInv` | service_manager/sm_registry.cpp:26-51 | A renewal that changes neither connection nor port nor host needs no announcement: all stays as reported |
| `RegistryHandlers.HandleUnregister` | service_manager/sm_registry.cpp:73-103 | Succeeds exactly for an instance of that name the connection owns; it is gone, reported offline to all who watch it, unpublished, and the reply came last |
| `RegistryHandlers.UnregisterSettles` | service_manager/sm_registry.cpp:370-379 | Removing, notifying and unpublishing end in a sound state whatever died meanwhile |
| `WatchHandlers.HandleHeartbeat` | service_manager/sm_registry.cpp:105-127 | Without hello, undecodable or with another incarnation the connection is closed; else it is acknowledged and, while sends succeed, everybody stays |
| `WatchHandlers.CheckFilters` | service_manager/sm_registry.cpp:264-292 | Accepts exactly 1 to 64 well-formed filters no two of which share an instance |
| `WatchHandlers.SnapshotMore` | service_manager/sm_registry.cpp:301-306 | Snapshots of disjoint filters, one after the other, make a snapshot that names each instance once |
| `WatchHandlers.SendInitial` | service_manager/sm_registry.cpp:341-364 | One filter: exactly the registered matching instances, each once, or one offline notice when there is none |
| `WatchHandlers.StartWatch` | service_manager/sm_registry.cpp:294-306 | A requester that survives has the group with a complete snapshot after the reply; one that dies leaves no trace |
| `WatchHandlers.SnappedInv` | service_manager/sm_registry.cpp:294-306 | A group with its snapshot satisfies the invariant at once: told online is registered and registered is told online |
| `WatchHandlers.HandleSubscribeWatch` | service_manager/sm_registry.cpp:252-307 | Accepted exactly for good disjoint filters under a free nonzero id; the initial snapshot reports each registered matching instance exactly once |
| `WatchHandlers.HandleUnsubscribeWatch` | service_manager/sm_registry.cpp:309-317 | The group goes and nothing else changes; malformed requests change nothing |
| `TopicHandlers.HandlePublish` | service_manager/sm_topic.cpp:83-140 | Succeeds exactly when the connection owns an instance of the name and the limits allow it; the slot carries host, port, host id and instance of the registry, and the claimed name and interfaces; afterwards nobody is owed a notification, every surviving connection with a selector for this service (by name, or by name and instance) was newly sent the publisher, and no other was |
| `TopicHandlers.AnnouncePublisher` | service_manager/sm_topic.cpp:129-139 | Reply first, then every surviving subscriber that wants the publisher is newly notified, whatever dies meanwhile, the publisher included |
| `TopicHandlers.NotifySubscribers` | service_manager/sm_topic.cpp:133-139 | After the loop every live connection listed has newly heard of the publisher, and nobody is waiting |
| `TopicHandlers.SendPublisherNotify` | service_manager/sm_topic.cpp:203-222 | A live connection has newly heard of the publisher if the notification fits; a dead one gets nothing |
| `TopicHandlers.HandleSubscribeTopic` | service_manager/sm_topic.cpp:156-179 | Added exactly when names, novelty and limits allow; reply first, then every live publisher of the topic with the selector's service name, and its instance if it names one, and no other, is sent, even when refused |
| `TopicHandlers.TellPublishers` | service_manager/sm_topic.cpp:173-178 | A subscriber that survives has newly heard of every publisher its selector wants |
| `TopicHandlers.GetIdlHash` | service_manager/topic_manager.cpp:622-647 | The hash is that of a publisher the selector wants, or 0 exactly when there is none |
| `TopicHandlers.HandleUnpublish` | service_manager/sm_topic.cpp:142-154 | Exactly this connection's slots on the topic go |
| `TopicHandlers.HandleUnsubscribeTopic` | service_manager/sm_topic.cpp:191-201 | Exactly this selector of this connection goes |
| `TopicHandlers.HandleQueryTopics` | service_manager/sm_topic.cpp:53-70 | The reply always serializes, holds the sorted duplicate-free topics of the service, and decodes to itself |
| `DiagHandlers.HandleHello` | service_manager/sm_diag.cpp:46-158 | Rejected exactly when malformed; otherwise the older session of the key is closed first, and if the greeting connection survives that, it is the session under its host and name and listed under its process only; while sends succeed and for names without the separator, only connections that greeted with the same host and name are closed, if and only if the key's entry is not left over from a repeated hello; stale news follows exactly from a supersession that silences services |
| `DiagHandlers.KeyForIff` | service_manager/sm_diag.cpp:79-92 | Two hellos without the separator byte get the same key if and only if hosts and names agree |
| `DiagHandlers.NamelessIff` | service_manager/sm_diag.cpp:79-82 | A runtime without a name goes by its process number: two such names agree if and only if the numbers do |
| `DiagHandlers.ClosesOwnIff` | service_manager/sm_diag.cpp:92-111 | A hello closes none but connections greeted with its host and name, if and only if no left-over entry stands under its key |
| `DiagHandlers.Supersede` | service_manager/sm_diag.cpp:92-111 | The superseded connection is closed, its services reported offline when the incarnation differs and dropped silently when it does not, and no other live connection claims the key |
| `DiagHandlers.Greet` | service_manager/sm_diag.cpp:112-138 | Session table, connection fields and process lists agree again |
| `DiagHandlers.GreetedInv` | service_manager/sm_diag.cpp:112-138 | Claiming an unclaimed session key keeps the whole invariant |
| `DiagHandlers.HandleWatchStart` | service_manager/sm_diag.cpp:256-283 | The command reaches every surviving connection of the process; the watch is recorded in both tables if one lived through it |
| `DiagHandlers.HandleWatchStop` | service_manager/sm_diag.cpp:352-367 | Only this pair goes, from both tables; the process is told to stop exactly when nobody watches it |
| `DiagHandlers.RemoveWatcherPair` | service_manager/sm_diag.cpp:307-317 | The pair leaves both tables, with the cascade of the stop command |
| `DiagHandlers.HandleSetLogLevel` | service_manager/sm_diag.cpp:224-254 | The level reaches every surviving connection of the process; the reply tells whether one took it |
| `Runs.Accept` | service_manager/service_manager_app.cpp:165-180 | A new connection starts empty; an id in use changes nothing |
| `Runs.Disconnect` | service_manager/service_manager_app.cpp:228-231 | The connection is gone, by one cascade, and its services were reported offline |
| `Runs.Writable` | service_manager/service_manager_app.cpp:182-198 | Exactly the bytes the transport answers for move on, without adding or losing a message; the connection is closed exactly if an answer is a failure |
| `Runs.HandleQuery` | service_manager/sm_registry.cpp:135-250 | One reply or none when it does not serialize; nothing else changes |
| `Runs.Step` | service_manager/service_manager_app.cpp:165-307 | Every event does what `Next` says, keeps the service manager sound, and clears `clean` exactly if it strands watchers: an accepted, announced registration whose requester is gone afterwards, or a same-incarnation supersession that removed services; while sends succeed, the connections that leave are exactly those of `Present` |
| `Runs.Dispatch` | service_manager/service_manager_app.cpp:233-307 | The same for every kind of request |
| `Runs.Start` | service_manager/service_manager_app.cpp:31-39 | The initial state is empty and sound |
| `Outboxes.Enqueue` | service_manager/service_manager_app.cpp:440-463 | Behind pending bytes the frame waits exactly when there is room; otherwise exactly the part the transport answers is taken and the rest waits, or the send failed |
| `Outboxes.QueuedOk` | service_manager/service_manager_app.cpp:440-450 | Queueing behind pending bytes keeps bytes taken plus bytes pending equal to all frames in order |
| `Outboxes.OfferedOk` | service_manager/service_manager_app.cpp:452-463 | Offering to the transport keeps it too, for every partial write |
| `Outboxes.FlushPending` | service_manager/service_manager_app.cpp:466-485 | For every pattern of partial writes nothing is lost, repeated or reordered, and what moves on, fails or is left to answer is what the answers up to the first refusal say; write interest is on exactly while something is pending |
| `Outboxes.PeerReceives` | service_manager/service_manager_app.cpp:433-485 | At any moment the peer parses a prefix of the messages sent, never corrupt; all of them once nothing is pending |
| `Outboxes.WatchNotifySendable` | service_manager/sm_registry.cpp:330-339 | Names within the registry limits always leave room for a watch notification |
| `Notifications.WatchNotifyRoundTrip` | src/core/runtime_sm.cpp:299-349 | The watcher reads back subscription, name, host id, instance and state; exactly a nameless one is refused |
| `Notifications.PublisherNotifyRoundTrip` | src/core/runtime_sm.cpp:237-296 | The subscriber reads back topic, description and hash, up to ring capacities cut to 32 bits |
| `Registry.ServiceRegistry.GenerateHandle` | service_manager/service_registry.cpp:18-26 | Handles count up and are never 0, also after wrap-around |
| `Registry.ServiceRegistry.FindEntry` | service_manager/service_registry.cpp:245-255 | Finds exactly the entry of the logical identity (name, instance id) |
| `Registry.ServiceRegistry.RemoveFromFdIndex` | service_manager/service_registry.cpp:43-60 | Exactly one reference goes, and an emptied list with it |
| `Registry.ServiceRegistry.AddService` | service_manager/service_registry.cpp:84-156 | Refused exactly for bad names; a take-over keeps the handle and reports the former connection; both indexes stay exact |
| `Registry.ServiceRegistry.RemoveServiceByIdentity` | service_manager/service_registry.cpp:176-191 | Exactly this instance goes, from both indexes |
| `Registry.ServiceRegistry.RemoveByFd` | service_manager/service_registry.cpp:193-231 | Exactly the instances the connection owns go; the list names each once |
| `Registry.ServiceRegistry.FindServiceByFdAndName` | service_manager/service_registry.cpp:257-278 | Finds an instance of that name exactly when the connection owns one |
| `Registry.ServiceRegistry.FindService` | service_manager/service_registry.cpp:233-243 | Finds an instance exactly when the name has one |
| `Registry.ServiceRegistry.ListServiceInstances` | service_manager/service_registry.cpp:296-314 | Exactly the instances of the name, each once |
| `Registry.ServiceRegistry.OwnsNothing` | service_manager/service_registry.cpp:344-361 | Empty exactly when the connection owns nothing |
| `Watching.OverlapsIffShared` | service_manager/service_watch_notifier.cpp:109-121 | Two filters overlap exactly when some instance matches both |
| `Watching.DisjointFiltersShareNothing` | service_manager/service_watch_notifier.cpp:96-121 | In a group without overlaps an instance matches one filter at most |
| `Watching.WatchNotifier.Subscribe` | service_manager/service_watch_notifier.cpp:13-37 | Refused exactly for a bad id, no filters or an id in use; both indexes stay exact |
| `Watching.WatchNotifier.EraseGroup` | service_manager/service_watch_notifier.cpp:123-148 | The group leaves all three maps, and no empty index row stays |
| `Watching.WatchNotifier.Unsubscribe` | service_manager/service_watch_notifier.cpp:39-50 | Exactly this group goes |
| `Watching.WatchNotifier.RemoveSubscriber` | service_manager/service_watch_notifier.cpp:52-67 | Exactly the groups of the connection go |
| `Watching.WatchNotifier.Matching` | service_manager/service_watch_notifier.cpp:69-94 | The indexed search returns exactly the groups a scan of all filters would, each once |
| `TopicKeys.EntryKeyInjective` | service_manager/topic_manager.cpp:49-58 | Different (service, topic) pairs have different keys, for arbitrary bytes |
| `TopicKeys.SelectorKeyIdentifies` | service_manager/topic_manager.cpp:11-23 | Two selectors have the same key exactly when they select alike |
| `TopicKeys.SelectorKeyIffMatches` | service_manager/topic_manager.cpp:11-47 | Two selectors match the same publishers if and only if they have the same key |
| `TopicKeys.SelectorMatches` | service_manager/topic_manager.cpp:25-38 | Matches exactly the service of that name, and of that instance where the selector names one |
| `TopicKeys.SessionKeyCollision` | include/omnibinder/types.h:113-121 | Two different runtimes with the same session key |
| `TopicKeys.SessionKeyUniqueIff` | include/omnibinder/types.h:113-121 | A session key is shared with another runtime exactly when host or runtime id holds the separator byte |
| `TopicIndexes.PubIndexExactIff` | service_manager/topic_manager.cpp:173-187 | Overwriting a slot keeps the publication index exact exactly when the former owner still publishes under the key |
| `TopicState.PublishKeepsWf` | service_manager/topic_manager.cpp:173-196 | Publishing keeps table, reference counts, indexes, counters and all limits in agreement |
| `TopicState.SubscribeKeepsWf` | service_manager/topic_manager.cpp:266-294 | Subscribing keeps them in agreement |
| `TopicState.DropPublisherKeepsWf` | service_manager/topic_manager.cpp:60-115 | Dropping a connection's slots of an entry, and an emptied entry with its name reference, keeps them in agreement |
| `TopicState.DropSubsKeepsWf` | service_manager/topic_manager.cpp:343-395 | Dropping selectors, and an emptied entry, keeps them in agreement |
| `TopicManagement.TopicManager.ScanService` | service_manager/topic_manager.cpp:156-171 | The scan counts exactly the other topics the service publishes, and their bytes |
| `TopicManagement.TopicManager.RegisterPublisher` | service_manager/topic_manager.cpp:117-196 | Succeeds exactly within the limits; then exactly this slot is set; refusals change nothing; exactness of the index is kept if and only if no other connection's last slot was overwritten |
| `TopicManagement.TopicManager.AddSubscriber` | service_manager/topic_manager.cpp:237-294 | Succeeds exactly when new and within the limits; then exactly this selector is added; refusals change nothing |
| `TopicManagement.TopicManager.RemoveSubscriber` | service_manager/topic_manager.cpp:343-395 | Exactly this selector goes |
| `TopicManagement.TopicManager.RemovePublisher` | service_manager/topic_manager.cpp:206-212 | Exactly the connection's slots on the topic go; true exactly if there were any |
| `TopicManagement.TopicManager.RemovePublishersByService` | service_manager/topic_manager.cpp:457-497 | Exactly the connection's slots of the service go |
| `TopicManagement.TopicManager.RemoveByFd` | service_manager/topic_manager.cpp:397-455 | Exactly the slots and selectors of the connection go, and its row in both indexes |
| `TopicManagement.TopicManager.GetMatchingSubscribers` | service_manager/topic_manager.cpp:516-539 | Exactly the connections with a selector that wants the publisher, each once |
| `TopicManagement.TopicManager.GetMatchingPublishers` | service_manager/topic_manager.cpp:541-568 | Exactly the live publishers the selector wants, each slot once |
| `ProcessTables.RemovePair` | service_manager/sm_diag.cpp:10-20 | The list represents the pairs without this one, and an emptied list goes |
| `ProcessTables.AddPair` | service_manager/sm_diag.cpp:135-138 | The list represents the pairs with this one, without repetition |
| `ProcessTables.DropTarget` | service_manager/sm_diag.cpp:332-350 | The process leaves the sets of all its watchers, and emptied sets go |
| `PublishedTopics.GetPublishedTopics` | service_manager/topic_manager.cpp:583-596 | Strictly sorted, and exactly the topics the service has publishers on |
| `PublishedTopics.SerializeReply` | src/core/message.cpp:300-332 | Succeeds exactly within the limits, and writes nothing otherwise |
| `PublishedTopics.DeserializeReply` | include/omnibinder/message.h:312-354 | Decodes as the pure reader does, with the aggregate limit counted on the way |
| `PublishedTopics.ReplyRoundTrip` | src/core/message.cpp:300-332 | Every reply that serializes decodes to itself |
| `PublishedTopics.DecodedIsEncoded` | include/omnibinder/message.h:312-354 | Whatever decodes is within the limits, and its encoding is the input, up to the byte that means true |
| `PublishedTopics.AlwaysServed` | service_manager/topic_manager.cpp:156-171 | In every state of the topic manager the list of any service serializes and fits in a frame |
| `Wire.ReadU16At` | src/core/buffer_read_utils.h:82-91 | Reading undoes writing, at any cursor |
| `Wire.ReadU32At` | src/core/buffer_read_utils.h:103-114 | Reading undoes writing, at any cursor |
| `Wire.ReadU64At` | src/core/buffer_read_utils.h:126-136 | Reading undoes writing, at any cursor |
| `Wire.ReadUint64` | src/core/buffer_read_utils.h:126-136 | The loop over eight bytes computes their value to the base 256 |
| `Wire.ReadStringAt` | src/core/buffer_read_utils.h:169-189 | Reading undoes writing, at any cursor |
| `Wire.ReadListAt` | include/omnibinder/message.h:481-485 | Reading a list undoes writing it, if reading one element does |
| `Frames.ParseHeaderBytes` | src/core/message.cpp:105-126 | Parsing undoes writing a header, whatever follows |
| `Frames.SerializedExtracts` | src/core/message.cpp:49-155 | Every strict prefix of a frame needs more; every extension extracts the same complete frame |
| `Frames.ExtractStable` | src/core/message.cpp:138-155 | A verdict on the front of a stream does not change with more bytes |
| `Frames.CutInTwo` | src/core/message.cpp:138-155 | Cutting a stream in pieces yields what cutting it at once does |
| `Frames.CorruptStays` | src/core/message.cpp:128-155 | A corrupt stream stays corrupt |
| `Frames.CutSerialized` | src/core/message.cpp:49-79 | The concatenation of frames cuts into exactly their messages |
| `ByteBuffer.CapacityLimits` | src/core/buffer.cpp:96-120 | The frame limit and the largest capacity are themselves doublings of the default size |
| `ByteBuffer.Buffer.NextCapacity` | src/core/buffer.cpp:96-120 | The next capacity is a doubling of the default size that suffices, or none exists |
| `ByteBuffer.Buffer.Grow` | src/core/buffer.cpp:96-120 | Contents and cursors survive, or the buffer is marked failed |
| `ByteBuffer.Buffer.EnsureCapacity` | src/core/buffer.cpp:83-94 | Succeeds exactly when there is or can be room |
| `ByteBuffer.Buffer.Reserve` | src/core/buffer.cpp:122-126 | Contents survive; capacity grows by doubling only |
| `ByteBuffer.Buffer.WriteRaw` | src/core/buffer.cpp:248-255 | Appends all bytes or none |
| `ByteBuffer.Buffer.WriteUint16` | src/core/buffer.cpp:163-169 | Appends the little-endian bytes or nothing |
| `ByteBuffer.Buffer.WriteUint32` | src/core/buffer.cpp:175-183 | Appends the little-endian bytes or nothing |
| `ByteBuffer.Buffer.WriteString` | src/core/buffer.cpp:214-227 | Appends prefix and bytes or nothing |
| `ByteBuffer.Buffer.Clear` | src/core/buffer.cpp:334-338 | Empties the buffer, keeps its array, lifts a failure |
| `ByteBuffer.Buffer.Assign` | src/core/buffer.cpp:377-385 | Holds exactly the given bytes, or is marked failed |
| `ByteBuffer.Buffer.TrySetReadPosition` | src/core/buffer.cpp:344-350 | Moves exactly within what was written |
| `ByteBuffer.Buffer.SetWritePosition` | src/core/buffer.cpp:356-367 | Never moves before the read cursor; grows when needed; what both contents share is unchanged |
| `ByteBuffer.Buffer.Compact` | src/core/buffer.cpp:391-398 | The unread bytes move to the front of the same array |
| `ByteBuffer.Buffer.WritableTail` | src/core/buffer.cpp:400-413 | There is always at least one byte of room unless the buffer failed or is at its limit |
| `ByteBuffer.Buffer.CommitWritten` | src/core/buffer.cpp:415-421 | Accepts exactly what fits in the tail |
| `ByteBuffer.Buffer.SerializeInPlace` | src/core/message.cpp:81-103 | The overlapping move and the header stores leave byte for byte what serialize outputs, also on a buffer marked failed |
| `StreamReader.RoomBelowLimit` | src/core/message_reader.cpp:82-97 | While a frame is incomplete, capacity stays a doubling within 2^24, so the oversize check never rejects valid frames |
| `StreamReader.Fill` | src/core/message_reader.cpp:82-97 | One receive appends exactly what arrived, or reports the transport's verdict |
| `StreamReader.ReadNextMessage` | src/core/message_reader.cpp:51-98 | Delivers the frame at the front, or corruption exactly when the front header is invalid, or keeps all bytes |
| `StreamReader.StreamSession.OnReadable` | service_manager/service_manager_app.cpp:200-226 | For every chunking, the messages delivered so far and the bytes kept are exactly the one-shot parse of all bytes received |
| `StreamReader.DrainedIsCut` | src/core/message_reader.cpp:51-98 | What was delivered, with undecided bytes left, is the one-shot parse |
| `ServiceCodec.ReadServiceAt` | include/omnibinder/message.h:461-492 | Decoding undoes encoding at any cursor, with ring capacities cut to 32 bits |
| `ServiceCodec.ServiceRoundTripIff` | src/core/message.cpp:265-290 | The round trip is exact, trailing bytes untouched, if and only if both ring capacities fit in 32 bits |
| `ServiceCodec.ReadInterfaceAt` | include/omnibinder/message.h:504-532 | Decoding undoes encoding of an interface with its methods |
| `ServiceCodec.DecodeCounted` | src/core/runtime_service.cpp:17-45 | Decodes as the pure counted reader does |
| `ServiceCodec.CountedBounded` | src/core/runtime_service.cpp:17-45 | No reply yields more elements than its bytes could hold |
| `ServiceCodec.CountedRoundTrip` | src/core/runtime_service.cpp:17-45 | The guard never rejects a genuine list whose elements take the minimum |
| `ServiceCodec.ReplyListsRoundTrip` | src/core/runtime_service.cpp:500-571 | The guards of 28 and 10 bytes never reject a valid list of services or interfaces |
| `ServiceSerializer.SerializeServiceInfo` | src/core/message.cpp:265-290 | Succeeds exactly on a buffer that has not failed and encodable descriptions that fit, and appends exactly the encoding the readers undo |
| `ServiceSerializer.WriteInterface` | src/core/message.cpp:354-377 | The same for one interface |
| `SessionTiming.NegotiateTimeout` | include/omnibinder/types.h:93-110 | The steps come to the longest of three intervals and the request or default, within the limit |
| `SessionTiming.NegotiatedCoversIff` | include/omnibinder/types.h:93-110 | The timeout covers three intervals and the request if and only if the limit allows both |
| `SessionTiming.UncappedCoversIff` | include/omnibinder/types.h:93-110 | Without a cap it does so if and only if the interval is at most a third of the 32-bit range |
| `SessionTiming.EffectiveTimeout` | service_manager/sm_diag.cpp:61-77 | A request of 0 takes the server default as it is; any other is negotiated |
| `SessionTiming.AckRoundTrip` | include/omnibinder/message.h:433-448 | The client reads back status, interval, timeout and incarnation of the acknowledgement |
| `SessionTiming.BothEndsAgree` | src/core/runtime_sm.cpp:92-110 | For every hello the client adopts exactly the interval and timeout the server works with, or none after a rejection; OK means exactly that it got what it asked for |
| `SessionTiming.ThreeBeatsIff` | service_manager/sm_diag.cpp:61-77 | The agreed timeout leaves room for three heartbeats if and only if the server limit does, and its default where the client leaves the choice to it |
| `Timers.CancelTimer` | src/core/event_loop.cpp:270-280 | Marks the first timer with the id; with distinct ids, exactly that one |
| `Timers.Collect` | src/core/event_loop.cpp:290-315 | Erasing and re-arming while iterating leaves exactly the live future timers and the repeating ones, put off by their interval, and collects exactly the live expired callbacks, in order |
| `Timers.WaitingIn` | src/core/event_loop.cpp:290-315 | Without repeating timers what stays are exactly the live timers that are not due |
| `Timers.CalculateTimeout` | src/core/event_loop.cpp:324-359 | A poll never sleeps past the soonest live timer, nor longer than asked |
| `SessionDeadlines.SessionTimers.AddTimer` | src/core/event_loop.cpp:250-268 | Appends one live timer; ids wrap around and skip 0 |
| `SessionDeadlines.SessionTimers.Accept` | service_manager/service_manager_app.cpp:316-334 | A new connection with its hello deadline; under a free id each connection still has exactly one live timer |
| `SessionDeadlines.SessionTimers.ArmSession` | service_manager/service_manager_app.cpp:336-349 | The former timer is cancelled, one of the next generation appended |
| `SessionDeadlines.SessionTimers.Hello` | service_manager/sm_diag.cpp:116-133 | Hello replaces the hello deadline by a session deadline; under a free id each connection still has exactly one live timer |
| `SessionDeadlines.SessionTimers.Heartbeat` | service_manager/sm_registry.cpp:124-125 | A heartbeat puts the deadline off by the full timeout, likewise |
| `SessionDeadlines.SessionTimers.Close` | service_manager/service_manager_app.cpp:351-362 | The connection goes with its timers cancelled; in an orderly state no other is touched |
| `SessionDeadlines.SessionTimers.RunExpired` | service_manager/service_manager_app.cpp:364-372 | The callbacks in order, each closing its connection only in its own generation |
| `SessionDeadlines.SessionTimers.ProcessTimers` | src/core/event_loop.cpp:282-322 | In an orderly state a deadline closes a connection only if its timeout has passed since its last hello or heartbeat, nobody who is due outlives the batch, and order is kept |
| `SessionDeadlines.BatchOrderly` | src/core/event_loop.cpp:282-322 | The same for every batch and every cascade in the middle of it, on values |
| `TimerIds.ArmingIff` | src/core/event_loop.cpp:250-280 | In every orderly state, arming keeps all deadlines in every continuation that finds its ids free, if and only if the next id is free |
| `TimerIds.OrderlyIsTrustworthy` | src/core/event_loop.cpp:282-322 | From an orderly state, whatever happens, deadlines are kept as long as ids are free when issued |
| `TimerIds.ReissueBreaks` | src/core/event_loop.cpp:250-280 | Arming under an id that is still listed, by hello, heartbeat or accept, is followed by some continuation in which a connection is closed early |
| `TimerIds.IdsRunOut` | src/core/event_loop.cpp:250-268 | Such states are reached from the start, with every id free when it was issued |
| `TimerIds.ReissuedIdClosesEarly` | src/core/event_loop.cpp:250-280 | Whatever is listed: accept under a listed id, close, and accept again within the timeout, and the batch closes the connection early |
| `TimerIds.ReissuedId` | service_manager/service_manager_app.cpp:316-334 | The same through Accept, Close, Accept and the batch |
| `EventLoop.StepConserves` | src/core/event_loop.cpp:361-397 | Each accepted functor is exactly one of executed, in a batch, pending, through every step |
| `EventLoop.StepKeepsInv` | src/core/event_loop.cpp:70-114 | Every step of any thread keeps the protocol invariant |
| `EventLoop.RunKeepsInv` | src/core/event_loop.cpp:70-114 | Every interleaving keeps it |
| `EventLoop.ExactlyOnce` | src/core/event_loop.cpp:70-114 | When run has returned, every functor whose post returned true was executed exactly once, and no other |
| `EventLoop.NeverTwiceNorRefused` | src/core/event_loop.cpp:361-375 | At any time nothing has run twice, and nothing whose post returned false has run |
| `EventLoop.StopIsNotLost` | src/core/event_loop.cpp:102-114 | A stop before or during start-up or running: no further round begins, and the owner can only leave |
| `EventLoop.AcceptedUntilClosed` | src/core/event_loop.cpp:361-375 | Every post is accepted until somebody begins to stop the loop, and none afterwards |
| `EventLoop.RunInOrderIff` | src/core/event_loop.cpp:361-397 | Functors run in the order in which their posts were accepted if and only if none runs in a poll begun by another functor whose batch has something left |
| `EventLoop.OvertakingExists` | src/core/event_loop.cpp:361-397 | Such a run exists: a functor that polls again lets a later post run before the rest of its batch |
| `EventLoop.OwnerCanGoOn` | src/core/event_loop.cpp:70-100 | The protocol never blocks the owner before run returns |
| `ReplyWait.RpcRuntime.NextSequence` | src/core/rpc_runtime.cpp:19-25 | Sequence numbers are never 0 |
| `ReplyWait.RpcRuntime.BeginWait` | src/core/pending_reply_table.cpp:24-38 | A slot for the wait; a reply that is already there stays |
| `ReplyWait.RpcRuntime.StoreReply` | src/core/pending_reply_table.cpp:79-93 | Replies nobody waits for add no slot, and the first reply stays |
| `ReplyWait.RpcRuntime.Clear` | src/core/pending_reply_table.cpp:10-22 | Ready slots go, waiting ones are marked failed |
| `ReplyWait.EvolvesTwice` | src/core/pending_reply_table.cpp:79-93 | Along any history an undisturbed slot holds the first reply that came under its number |
| `ReplyWait.RpcRuntime.RunCallbacks` | src/core/rpc_runtime.cpp:91-92 | Whatever nests inside a poll restores deadline and flag, adds no slot, and leaves every other wait its first reply |
| `ReplyWait.RpcRuntime.PollUntilReady` | src/core/rpc_runtime.cpp:78-98 | The loop ends with the reply, past the deadline, or on a failed slot or dead connection |
| `ReplyWait.RpcRuntime.WaitForReply` | src/core/rpc_runtime.cpp:55-104 | For any nesting: the outcome and the slots are those of the recursive reading of the script; deadline and flag restored, own slot gone, no slot added; unless a reconnect or another wait for the number interferes, exactly the first reply that comes is returned; without one the deadline passed or a poll found the connection dead |
| `ReplyWait.WaitedPlain` | src/core/rpc_runtime.cpp:55-104 | A wait that no reconnect and no other wait disturbs returns the reply if and only if it comes in a poll begun in time, before the connection is found dead |

## Left out

- Sockets, epoll, eventfd, shared memory and their handshakes: what a transport answers to sends is given as a list, and what it delivers as chunks, both arbitrary.
- The framed branch of `readNextMessage`: a single-frame copy without reassembly.
- Client-side reconnect and restore, the client topic runtime, proxies, the C API, the code generator and the tools.
- Allocation failure, floating-point fields, object lifetime and pointer reuse: values are modelled, not memory.
- Decoding of requests inside the handlers: a handler gets the decoded request, or None for one that does not decode; the codecs of service descriptions and of the published-topics reply are modelled on their own.
- Order of `std::map` iteration: loops over tables take the entries in any order.
- Entry points no handler reaches: removal of a service by name, `setIdlHash`, ownerless `removePublisher`, `removeSubscriber` without selector.
- Wake-ups: no statement says that a blocked poll is woken in time.
- TopicManagement.TopicManager.RemoveByFd: the lists of topics that the source returns are not modelled, because no handler reads them.
- TopicManagement.TopicManager.RemovePublishersByService: the returned list is not modelled either, and the two passes of the source are one loop.
- Runs.HandleQuery: the bodies of lookup, list and runtime-list replies are given, not computed, because they only report.
- SessionDeadlines.SessionTimers.Close: the 64-bit generation counter does not wrap around in the model.
- TimerIds.ArmingIff: for a connection that was itself armed 2^32 - 2 times or more only the sufficient half is claimed, because it cannot come back to that generation before the ids run out.
- Runs.Accept: connection ids are not negative, as socket descriptors are.
- DiagHandlers.HandleWatchStart: does not claim that the watched process still has a connection, because it can lose its last one in the same cascade.
- EventLoop.AcceptedUntilClosed: tickets stand for functors; what a functor does besides posting, stopping and polling is not modelled.
- DiagHandlers.HandleSetLogLevel: the log level stored per connection is not modelled, because it is only reported.
- ServiceSerializer.SerializeServiceInfo: on failure it says nothing of the partial contents, which callers discard.
- EventLoop.OwnerCanGoOn: the owner's next step is enabled, but fairness and termination of functors are not modelled.
- ReplyWait.RpcRuntime.WaitForReply: what polls bring is a finite script, and a poll beyond it lasts until the deadline.
