# Android framework core, modelled in Dafny

This project models seven pieces of the Android framework and proves their
behaviour:

- **ConnectivityService**, the system service that owns the network state
  trackers. The model covers:
  - start-up: the radio attribute and network configuration tables, and the
    priority list of network types;
  - choosing the active default network when a network connects;
  - failover when a default network disconnects or fails to connect;
  - `startUsingNetworkFeature` and `stopUsingNetworkFeature`, with their
    feature-user list and per-type requester pid lists;
  - the host routes of a link and their reference counts for default routes;
  - DNS system properties: the global `net.dnsN` slots, the per-process
    `net.dnsN.<pid>` slots and the `net.dnschange` counter;
  - the internet-condition hold-off, and the network transition wakelock.
- **CarrierAppUtils**, which disables pre-installed carrier apps until a SIM
  with carrier privileges (or a matching SIM operator) arrives.
- **SpecialCarrierAppInfo**, which holds a special carrier app's
  comma-separated operator codes and its matched UICC slot.
- **CatService**, the SIM Application Toolkit service. The model covers:
  - encoding terminal responses, menu selection envelopes and event download
    envelopes as BER-TLV bytes, with the BCD and time-zone octets;
  - answering proactive commands at once or passing them on;
  - handling the user's responses.
- **SmsCbMessage**, a cell broadcast message. The model covers:
  - decoding the data coding scheme and the multi-page UMTS body;
  - unpacking text and stripping trailing carriage returns;
  - the parcel round trip.
- **IdleCache**, the HTTP connection cache of fixed capacity. Its slots are
  an array, reused by host and swept when idle.
- **BasicTagTechnology**, the NFC tag technology base class. It covers
  connect, reconnect, close and transceive through the NFC service.

Each Java class whose fields its methods update is a Dafny `class` over the
same fields, with `modifies` clauses. Each loop is a `method` whose
postcondition ties its result to a specification function, and the promised
properties are lemmas about those functions. Calls to other system services
are explicit: the package manager is a map, and the NFC service, the radio
interface and the `netd` daemon are reply parameters or call logs appended
to. Text decoders that the model does not contain are function parameters.

Modules (one per file):

- `Wrappers`: Option.
- `NetworkConfigs`: radio and network tables, feature-to-type conversion.
- `PriorityList`: the priority list, as written and corrected.
- `ConnectivityRules`: the pure rules behind the service's state changes.
- `DnsProperties`: the DNS property writer.
- `Routes`: the route table.
- `Connectivity`: the service class.
- `SpecialCarrierApps`, `CarrierApps`, `SimToolkit`, `CellBroadcast`,
  `HttpIdleCache` and `NfcTagTechnology`: one per remaining Java class.

## Model

| member | source | states |
|---|---|---|
| NetworkConfigs.RadioTableDefines | services/java/com/android/server/ConnectivityService.java:439-453 | loading radio attributes fails exactly when some radio type is negative; otherwise the table has MAX_RADIO_TYPE+1 entries and marks exactly the listed types |
| NetworkConfigs.LoadRadioAttributes | services/java/com/android/server/ConnectivityService.java:439-453 | the loop fills the radio array and reports success exactly as the radio table specification says |
| NetworkConfigs.RadioFailurePersists | services/java/com/android/server/ConnectivityService.java:441-453 | once a prefix of the radio entries fails, the whole load fails |
| NetworkConfigs.LoadedIsFirstAcceptable | services/java/com/android/server/ConnectivityService.java:455-480 | each type's loaded configuration is the first entry for that type whose radio is supported and whose type is in range (later duplicates are ignored); every loaded configuration has a supported radio |
| NetworkConfigs.LoadNetworkConfigs | services/java/com/android/server/ConnectivityService.java:455-480 | the loop fills the configuration array as specified and counts mNetworksDefined as the number of configured types |
| NetworkConfigs.AcceptedAdd | services/java/com/android/server/ConnectivityService.java:475-476 | storing a configuration in an empty slot defines exactly one more network type |
| NetworkConfigs.ConvertFeatureToNetworkType | services/java/com/android/server/ConnectivityService.java:3327-3363 | a mobile type maps to the sub-type its feature names (or stays); wifi with the P2P feature maps to wifi-p2p; any other type is unchanged; a valid type maps to a valid type |
| NetworkConfigs.IsNetworkTypeValid | services/java/com/android/server/ConnectivityService.java:1278 | ConnectivityManager.isNetworkTypeValid, read as a type number inside the configuration table (ConnectivityManager.java is not part of this model) |
| NetworkConfigs.ConvertIdempotent | services/java/com/android/server/ConnectivityService.java:3327-3363 | converting the converted type again changes nothing |
| NetworkConfigs.FeatureOf | services/java/com/android/server/ConnectivityService.java:3331-3354 | a caller's feature string becomes the feature of the first constant it equals, or OtherFeature exactly when it equals none, and the feature stands for that string |
| NetworkConfigs.FeatureOfMatchesStringEquality | services/java/com/android/server/ConnectivityService.java:3331-3354 | two strings give the same feature exactly when they are equal, so Feature equality is TextUtils.equals |
| NetworkConfigs.FeatureNameRoundTrip | services/java/com/android/server/ConnectivityService.java:3331-3354 | with distinct constants, FeatureOf inverts NameOf on every feature a string can produce |
| NetworkConfigs.RestoreDefaultNetworkDelay | services/java/com/android/server/ConnectivityService.java:2709-2727 | a numeric system property wins; otherwise the type's configured restore time; otherwise one minute |
| PriorityList.NextLevelLeast | services/java/com/android/server/ConnectivityService.java:500-508 | after scanning a prefix, nextLowest is the least priority above the current level, or absent exactly when there is none |
| PriorityList.NextLevelStep | services/java/com/android/server/ConnectivityService.java:500-508 | one configuration lowers nextLowest exactly when its priority is above the current level and below the previous candidate |
| PriorityList.LevelsAdvance | services/java/com/android/server/ConnectivityService.java:499-513 | after a pass, the placed types are exactly those below the next level, or all configured types when there is no next level |
| PriorityList.LowestFrom | services/java/com/android/server/ConnectivityService.java:497 | the lowest configured priority, as the level the corrected loop starts from; absent exactly when nothing is configured |
| PriorityList.PlaceLevel | services/java/com/android/server/ConnectivityService.java:500-512 | one pass places the current level at the insertion point and keeps the placed suffix ordered; it finds the next level or reports that all types are placed |
| PriorityList.ScanSlot | services/java/com/android/server/ConnectivityService.java:500-510 | one visit of the for-each keeps the placed suffix, the level sets and nextLowest consistent |
| PriorityList.Place | services/java/com/android/server/ConnectivityService.java:509 | writing a type at the insertion point prepends it to the ordered suffix and moves the insertion point down by one |
| PriorityList.PassLevel | services/java/com/android/server/ConnectivityService.java:499-513 | a pass over a non-empty level strictly lowers the insertion point, so the corrected loop terminates |
| PriorityList.BuildPriorityList | services/java/com/android/server/ConnectivityService.java:493-514 | the priority list holds exactly the configured types, mNetworksDefined of them; a larger priority comes first, and equal priorities keep the larger type first |
| PriorityList.AsWrittenPriorityList | services/java/com/android/server/ConnectivityService.java:493-514 | the priority-list loop as written, run for a given number of passes; StillRunning when they run out; a finished run fills an array of mNetworksDefined entries, and no defined network gives the empty list |
| PriorityList.NegativePriorityNeverFinishes | services/java/com/android/server/ConnectivityService.java:493-514 | as written, a lone negative priority leaves the loop running after any number of passes |
| PriorityList.NegativePriorityDuplicates | services/java/com/android/server/ConnectivityService.java:493-514 | as written, priorities 1 and -1 give the list [0, 0]: one type twice, the other missing |
| PriorityList.VisitSkips | services/java/com/android/server/ConnectivityService.java:500-510 | one visit of the loop as written (AsWrittenPriorityList) of a slot not at the current level c >= 0 writes nothing and keeps the corrected scan's invariant, with the next level updated |
| PriorityList.VisitWrites | services/java/com/android/server/ConnectivityService.java:500-510 | one visit of the loop as written of a slot at the current level c >= 0 writes that type just in front of those already placed, inside the array, and keeps the list in priority order |
| PriorityList.PassFromPlaces | services/java/com/android/server/ConnectivityService.java:499-513 | a pass as written at a level of 0 or more places that level in front of the lower ones and leaves the next level in nextLowest, 0 for none |
| PriorityList.RunPassesFinishes | services/java/com/android/server/ConnectivityService.java:493-514 | from a level of 0 or more with everything below it placed, the passes as written finish on the complete ordered list |
| PriorityList.OrderedUnique | services/java/com/android/server/ConnectivityService.java:493-514 | two lists of the same types, both in priority order, are equal: the priority list is determined by the configuration |
| PriorityList.AsWrittenAgrees | services/java/com/android/server/ConnectivityService.java:493-514 | when no priority is negative, the loop as written finishes within mNetworksDefined + 1 passes on a list meeting BuildPriorityList's contract, hence (OrderedUnique) on the same list |
| ConnectivityRules.PreferredFollowsPriorityList | services/java/com/android/server/ConnectivityService.java:2115-2121 | away from the preferred type, a new default network displaces the active one exactly when it is listed before the active one in the priority list or has an equal priority, so a newcomer listed after the active network still wins a tie |
| ConnectivityRules.PreferenceDecides | services/java/com/android/server/ConnectivityService.java:2115-2121 | the preferred network is never displaced, and always displaces another type |
| ConnectivityRules.AfterTeardown | services/java/com/android/server/ConnectivityService.java:785-792 | a teardown changes only the torn-down tracker, and sets its teardown flag exactly when the tracker accepted |
| ConnectivityRules.FailoverTargetsExact | services/java/com/android/server/ConnectivityService.java:1849-1874 | failover reconnects, in increasing type order, exactly the other default types whose tracker is disconnected or being torn down |
| ConnectivityRules.MarkFailover | services/java/com/android/server/ConnectivityService.java:1869-1872 | marking failover keeps the number of trackers |
| ConnectivityRules.Reconnects | services/java/com/android/server/ConnectivityService.java:1869-1872 | one reconnect call per failover target, in order |
| ConnectivityRules.MarkFailoverAppend | services/java/com/android/server/ConnectivityService.java:1849-1874 | one more target flags exactly that tracker for failover |
| ConnectivityRules.ReconnectsAppend | services/java/com/android/server/ConnectivityService.java:1849-1874 | one more target appends exactly its reconnect call |
| ConnectivityRules.FailoverStep | services/java/com/android/server/ConnectivityService.java:1849-1874 | the loop's test on the partly updated trackers agrees with the candidate rule on the original ones, and a candidate extends both the flags and the calls |
| ConnectivityRules.FailoverSparesLiveNetworks | services/java/com/android/server/ConnectivityService.java:1849-1872 | the failed network and any live network are neither reconnected nor flagged |
| ConnectivityRules.Register | services/java/com/android/server/ConnectivityService.java:1159-1173 | a request is recorded unless the restore timer is negative and the same user already holds one |
| ConnectivityRules.RepeatedStartAddsNothing | services/java/com/android/server/ConnectivityService.java:1159-1173 | with a negative restore timer, a second start by the same user records nothing new |
| ConnectivityRules.AddPid | services/java/com/android/server/ConnectivityService.java:1174-1177 | a pid joins a requester list at most once |
| ConnectivityRules.RemoveFirst | services/java/com/android/server/ConnectivityService.java:1298 | removing a user takes away exactly one occurrence, and nothing when absent |
| ConnectivityRules.FirstSameUser | services/java/com/android/server/ConnectivityService.java:1244-1252 | finds a feature user with the same pid, uid, type and feature, or none exactly when no such user exists |
| ConnectivityRules.ServingNetwork | services/java/com/android/server/ConnectivityService.java:2538-2560 | the first network in priority order that is live, secondary, requested by the pid and has DNS servers; none exactly when no network qualifies |
| ConnectivityRules.ReassessedSlots | services/java/com/android/server/ConnectivityService.java:2535-2572 | reassessing a pid touches only its own DNS slots: they receive the serving network's servers, or are blanked up to the first empty slot when no network serves it |
| DnsProperties.WriteServers | services/java/com/android/server/ConnectivityService.java:2575-2587 | slot i holds the i-th server afterwards, no other property changes, and "changed" is true exactly when some slot held something else |
| DnsProperties.WriteUnchanged | services/java/com/android/server/ConnectivityService.java:2575-2587 | writing servers already in place changes nothing and reports no change |
| DnsProperties.BlankServers | services/java/com/android/server/ConnectivityService.java:2649-2654 | the slots in the range become empty and nothing else changes |
| DnsProperties.FirstEmptySlot | services/java/com/android/server/ConnectivityService.java:2562-2571 | the first empty per-pid slot at or after the start, with every slot before it non-empty |
| DnsProperties.GlobalUpdateSlots | services/java/com/android/server/ConnectivityService.java:2620-2670 | updateDns writes the servers (or the default server when there are none) into the global slots, blanks the rest of the old count, stores the search domains and leaves per-pid slots alone |
| DnsProperties.GlobalUpdateChanged | services/java/com/android/server/ConnectivityService.java:2620-2670 | updateDns reports a change exactly when a slot differed, the count shrank or the domains changed; netd is told when a slot differed or the count shrank |
| DnsProperties.GlobalUpdateIdempotent | services/java/com/android/server/ConnectivityService.java:2620-2670 | repeating updateDns with the same data changes nothing and tells netd nothing |
| DnsProperties.AttachedPidDnsExact | services/java/com/android/server/ConnectivityService.java:2699-2705 | corrected: every attached pid gets the servers, nothing else changes, and the change flag is set exactly when any pid's slots were stale |
| DnsProperties.AttachedPidDnsAsWritten | services/java/com/android/server/ConnectivityService.java:2699-2705 | the per-pid loop as written: it writes the same properties as the corrected loop, and its flag (the last pid's) is set only when the corrected one is |
| DnsProperties.StaleFirstPidNotReported | services/java/com/android/server/ConnectivityService.java:2699-2705 | as written, a stale first pid followed by an up-to-date second pid writes the first pid's slots but reports no change |
| DnsProperties.DnsProperties.BumpDns | services/java/com/android/server/ConnectivityService.java:2589-2617 | net.dnschange goes up by one and the resolver cache is flushed once |
| DnsProperties.DnsProperties.WriteSlots | services/java/com/android/server/ConnectivityService.java:2575-2587 | the loop writes the properties and change flag that WriteServers specifies |
| DnsProperties.DnsProperties.BlankGlobalSlots | services/java/com/android/server/ConnectivityService.java:2649-2654 | the loop blanks the global slots in the range |
| DnsProperties.DnsProperties.WritePidDns | services/java/com/android/server/ConnectivityService.java:2575-2587 | writePidDns writes one pid's slots as WriteServers specifies |
| DnsProperties.DnsProperties.UpdateDns | services/java/com/android/server/ConnectivityService.java:2620-2670 | updateDns leaves the properties, the entry count and the netd calls that the global update specifies |
| DnsProperties.DnsProperties.ClearPidDns | services/java/com/android/server/ConnectivityService.java:2562-2571 | clears the pid's slots from 1 up to its first empty slot |
| DnsProperties.DnsProperties.WriteAttachedPidDns | services/java/com/android/server/ConnectivityService.java:2699-2703 | corrected per-pid loop: the result accumulates every pid's change flag |
| DnsProperties.DnsProperties.SetDnsServers | services/java/com/android/server/ConnectivityService.java:2692-2697 | netd is told the interface's DNS servers once |
| Routes.GatewayRoute | services/java/com/android/server/ConnectivityService.java:1468-1481 | a route that RouteInfo.isHostRoute (the `isHostRoute` parameter) accepts gets no gateway route; otherwise there is one exactly when selectBestRoute finds a route to the gateway, and it is a host route to the gateway, without a gateway of its own or through the best route's gateway |
| Routes.ModifyRouteSpec | services/java/com/android/server/ConnectivityService.java:1456-1525 | a missing interface, link, route, or a recursion deeper than MAX_HOSTROUTE_CYCLE_COUNT changes nothing and fails |
| Routes.HostRouteIsOneStep | services/java/com/android/server/ConnectivityService.java:1468 | a route that `isHostRoute` accepts skips the `if` at 1468: within the recursion bound, modifyRoute on it is its own add or remove step |
| Routes.GatewayRecursionDepthOne | services/java/com/android/server/ConnectivityService.java:1468-1481 | under the explicit hypothesis that `isHostRoute` accepts the gateway's host route built at 1472 or 1476, the recursive call at 1478 is that route's own step, followed by the route's step; without the hypothesis the recursion goes on |
| Routes.BoundStopsGatewayStep | services/java/com/android/server/ConnectivityService.java:1463-1481 | at cycleCount MAX_HOSTROUTE_CYCLE_COUNT the recursive call at 1478 fails at the guard of 1463, so only the route's own step remains |
| Routes.SecondaryKeepsCount | services/java/com/android/server/ConnectivityService.java:1488-1522 | secondary-table changes never touch the default-route reference counts |
| Routes.DefaultAddCountsOnce | services/java/com/android/server/ConnectivityService.java:1485-1487 | adding a route that `isHostRoute` accepts to the default table counts it once more and always calls netd |
| Routes.DefaultRemoveRefCounts | services/java/com/android/server/ConnectivityService.java:1499-1512 | removing a host route from the default table drops one count and calls netd only when no other reference remains |
| Routes.AddThenRemoveRestoresCount | services/java/com/android/server/ConnectivityService.java:1482-1512 | for a host route, add then remove restores the counts, and leaves the route installed exactly when it was already referenced |
| Routes.Minus | services/java/com/android/server/ConnectivityService.java:2403-2412 | the removed (or added) items are those in one list and not the other |
| Routes.Compare | services/java/com/android/server/ConnectivityService.java:2403-2412 | with no current list nothing is removed and every target item is added |
| Routes.RoutesChangedIffSetsDiffer | services/java/com/android/server/ConnectivityService.java:2414 | routes changed exactly when the old and new route sets differ |
| Routes.AddressRoute | services/java/com/android/server/ConnectivityService.java:1438-1454 | the route to an address is a host route to that address |
| Routes.DnsOps | services/java/com/android/server/ConnectivityService.java:2453-2469 | one host-route change per DNS server, in order |
| Routes.DefaultLinkOpsOnly | services/java/com/android/server/ConnectivityService.java:2416-2446 | on the default link every route change goes to the default table |
| Routes.DefaultLinkPlan | services/java/com/android/server/ConnectivityService.java:2416-2446 | the whole update of a default link touches only the default table |
| Routes.NonDefaultLinkOps | services/java/com/android/server/ConnectivityService.java:2416-2446 | a non-default link's route changes never add a default route |
| Routes.DnsOpsAddNoDefault | services/java/com/android/server/ConnectivityService.java:2448-2471 | DNS route changes are all host routes |
| Routes.DnsRouteOpsAddNoDefault | services/java/com/android/server/ConnectivityService.java:2448-2471 | DNS route maintenance never adds a default route |
| Routes.NonDefaultLinkAddsNoDefaultRoute | services/java/com/android/server/ConnectivityService.java:2400-2473 | updating a non-default link never installs a default route |
| Routes.RouteTable.ModifyRoute | services/java/com/android/server/ConnectivityService.java:1456-1525 | modifyRoute changes the counts and netd log, and returns the result, that the specification gives |
| Routes.RouteTable.Apply | services/java/com/android/server/ConnectivityService.java:1422-1428 | one route operation has its specified effect |
| Routes.RouteTable.UpdateRoutes | services/java/com/android/server/ConnectivityService.java:2400-2473 | updateRoutes reports whether routes changed and applies the removal, addition and DNS-route plan in order |
| Routes.RouteTable.RemoveRoutes | services/java/com/android/server/ConnectivityService.java:2416-2424 | the removal loop applies each removed route's operations in order |
| Routes.RouteTable.AddRoutes | services/java/com/android/server/ConnectivityService.java:2426-2446 | the addition loop applies each added route's operations in order |
| Routes.RouteTable.UpdateDnsRoutes | services/java/com/android/server/ConnectivityService.java:2448-2471 | the DNS-route part of updateRoutes |
| Routes.RouteTable.ModifyDnsRoutes | services/java/com/android/server/ConnectivityService.java:1430-1436 | one host route per DNS server is added or removed |
| Connectivity.Refusal | services/java/com/android/server/ConnectivityService.java:1108-1223 | a start request goes ahead only for a valid configured type, without lockdown or a metered refusal, and when the used type has a tracker; otherwise it fails or reports the type unavailable |
| Connectivity.HoldDelay | services/java/com/android/server/ConnectivityService.java:3142-3148 | the debounce delay: for a condition above 50 the up setting, else 500 ms; otherwise the down setting, else 3000 ms |
| Connectivity.ConnectivityService.constructor | services/java/com/android/server/ConnectivityService.java:436-514 | the service starts with the configured trackers, a priority list ordered by priority and holding exactly the configured types, no active default network and no users or requesters |
| Connectivity.ConnectivityService.Teardown | services/java/com/android/server/ConnectivityService.java:785-792 | teardown asks the tracker, and records the teardown exactly when the tracker accepts |
| Connectivity.ConnectivityService.HandleConnect | services/java/com/android/server/ConnectivityService.java:2123-2186 | a secondary network only clears its teardown flag; a losing default network is torn down; a winning one tears the old default down and becomes the active default, with a new connection sequence and the published condition reset |
| Connectivity.ConnectivityService.Contest | services/java/com/android/server/ConnectivityService.java:2136-2163 | the new network wins exactly when it is preferred and the old one agrees to tear down, and the teardown calls follow the source's branches |
| Connectivity.ConnectivityService.TakeOver | services/java/com/android/server/ConnectivityService.java:2165-2182 | the winner becomes the active default, the condition is reset and a held wakelock is scheduled for release |
| Connectivity.ConnectivityService.TryFailover | services/java/com/android/server/ConnectivityService.java:1837-1875 | losing a default network clears the active default when it was that network, and reconnects and flags every failover target; a secondary type changes nothing |
| Connectivity.ConnectivityService.FlagFailover | services/java/com/android/server/ConnectivityService.java:1849-1874 | the failover loop flags and reconnects exactly the failover targets |
| Connectivity.ConnectivityService.FailoverSlot | services/java/com/android/server/ConnectivityService.java:1850-1872 | one pass of the failover loop extends the flags and calls by that type's verdict |
| Connectivity.ConnectivityService.ReassessPidDns | services/java/com/android/server/ConnectivityService.java:2535-2572 | the pid's DNS slots become those of its serving network or are cleared, and the resolver is told when asked |
| Connectivity.ConnectivityService.Contains | services/java/com/android/server/ConnectivityService.java:2547-2557 | the requester-list scan finds the pid exactly when it is present |
| Connectivity.ConnectivityService.ReassessAll | services/java/com/android/server/ConnectivityService.java:1713-1722 | every requester pid of a lost network is reassessed in turn, without a resolver bump |
| Connectivity.ConnectivityService.HandleDisconnect | services/java/com/android/server/ConnectivityService.java:1698-1748 | a lost default network triggers failover and may clear the active default; a lost secondary network has its requesters' DNS reassessed |
| Connectivity.ConnectivityService.HandleConnectionFailure | services/java/com/android/server/ConnectivityService.java:1996-2036 | a failed default network triggers failover exactly as a disconnect does; a secondary one only clears its teardown flag |
| Connectivity.ConnectivityService.HandleDnsConfigurationChange | services/java/com/android/server/ConnectivityService.java:2672-2707 | a live default network updates the global DNS unless it is overridden; a live secondary network sets netd's servers and every requester pid's slots; the resolver is bumped exactly when something changed |
| Connectivity.ConnectivityService.StartUsingNetworkFeature | services/java/com/android/server/ConnectivityService.java:1096-1234 | refusals change nothing; a feature that keeps the type only records the requester and reports -1; otherwise the user is registered, its restore timer scheduled, and the tracker is reused, reconnected or reported already active |
| Connectivity.ConnectivityService.Admit | services/java/com/android/server/ConnectivityService.java:1157-1210 | register the request, then activate the used network |
| Connectivity.ConnectivityService.Activate | services/java/com/android/server/ConnectivityService.java:1185-1210 | a live connected tracker is already active and has its DNS refreshed; a live connecting tracker is left to finish; otherwise the tracker is reconnected |
| Connectivity.ConnectivityService.AddRequest | services/java/com/android/server/ConnectivityService.java:1157-1183 | records the feature user and the requester pid, and schedules the restore when the timer is not negative |
| Connectivity.ConnectivityService.ScanSameUser | services/java/com/android/server/ConnectivityService.java:1161-1171 | the scan finds a same user exactly when one is present |
| Connectivity.ConnectivityService.Stop | services/java/com/android/server/ConnectivityService.java:1265-1355 | an invalid type gives -1 and an unknown user gives 1, changing nothing; otherwise one occurrence of the user is removed; a remaining duplicate, the feature's own type or no tracker stops there; otherwise the pid leaves the requesters, its DNS is reassessed and the network is torn down when its last requester leaves (the predicate `Stopped`) |
| Connectivity.ConnectivityService.DropUser | services/java/com/android/server/ConnectivityService.java:1298 | removes exactly one occurrence of the feature user |
| Connectivity.ConnectivityService.ReleaseUse | services/java/com/android/server/ConnectivityService.java:1300-1337 | the part of stopUsingNetworkFeature after the removal, with the same outcomes |
| Connectivity.ConnectivityService.ReleaseRequester | services/java/com/android/server/ConnectivityService.java:1326-1354 | the pid leaves the requesters, its DNS is reassessed with a bump, and the network is torn down when no requester is left |
| Connectivity.ConnectivityService.StopUsingNetworkFeature | services/java/com/android/server/ConnectivityService.java:1237-1263 | without a matching feature user nothing changes and the result is 1; otherwise the first matching user is stopped with duplicates ignored, with every effect `Stopped` states: its removal, the requester release, the DNS reassessment and net.dnschange bump, and the teardown when no requester is left |
| Connectivity.ConnectivityService.ExpireFeatureUser | services/java/com/android/server/ConnectivityService.java:1066-1073 | the restore timer's expiry stops that user with duplicates counted, with every effect `Stopped` states: an unknown user gives 1 and changes nothing; a duplicate left behind keeps the network (1); a lone sub-type request releases the pid, reassesses its DNS with a bump, and tears the network down when it was the last requester (1) |
| Connectivity.ConnectivityService.HandleInetConditionChange | services/java/com/android/server/ConnectivityService.java:3123-3157 | a report about the active default network records the condition and, unless a change is already in flight, schedules the hold-off end |
| Connectivity.ConnectivityService.HandleInetConditionHoldEnd | services/java/com/android/server/ConnectivityService.java:3159-3190 | the condition is published only for the same connection sequence of a still connected default network |
| Connectivity.ConnectivityService.RequestNetworkTransitionWakelock | services/java/com/android/server/ConnectivityService.java:3086-3099 | the first request takes the wakelock with a new serial and schedules its release; later requests change nothing |
| Connectivity.ConnectivityService.HandleClearWakelock | services/java/com/android/server/ConnectivityService.java:2887-2899 | only the release of the current serial drops a held wakelock |
| SpecialCarrierApps.NewInfo | telephony/java/com/android/internal/telephony/SpecialCarrierAppInfo.java:50-62 | a new info keeps its package, operator codes and intent, and has not matched any slot |
| SpecialCarrierApps.AllOperatorCodesToMatch | telephony/java/com/android/internal/telephony/SpecialCarrierAppInfo.java:68-70 | no split operator code contains a comma |
| SpecialCarrierApps.Contains | telephony/java/com/android/internal/telephony/SpecialCarrierAppInfo.java:73-79 | the scan finds the code exactly when it is listed |
| SpecialCarrierApps.MatchesAgainstOperator | telephony/java/com/android/internal/telephony/SpecialCarrierAppInfo.java:72-80 | a null operator code never matches, nor does one containing a comma |
| SpecialCarrierApps.FieldsHaveNoComma | telephony/java/com/android/internal/telephony/SpecialCarrierAppInfo.java:68-70 | splitting at commas leaves no comma in any field |
| SpecialCarrierApps.Split | telephony/java/com/android/internal/telephony/SpecialCarrierAppInfo.java:68-70 | String.split(","): a string without a comma is its own single field; no field holds a comma; with a comma, trailing empty fields are dropped |
| SpecialCarrierApps.JoinFields | telephony/java/com/android/internal/telephony/SpecialCarrierAppInfo.java:68-70 | joining the fields with commas gives back the original string |
| SpecialCarrierApps.MatchesIffField | telephony/java/com/android/internal/telephony/SpecialCarrierAppInfo.java:72-80 | a non-empty operator code matches exactly when it is one of the comma-separated fields |
| CarrierApps.SystemAppInfo | telephony/java/com/android/internal/telephony/CarrierAppUtils.java:503-516 | the package's info is returned exactly when it is installed as a system app |
| CarrierApps.SystemAppsSound | telephony/java/com/android/internal/telephony/CarrierAppUtils.java:462-470 | every candidate is a system app named in the configuration |
| CarrierApps.SystemAppsComplete | telephony/java/com/android/internal/telephony/CarrierAppUtils.java:462-470 | every configured package installed as a system app is a candidate |
| CarrierApps.CandidatesHelper | telephony/java/com/android/internal/telephony/CarrierAppUtils.java:448-470 | no candidate list (null) exactly when the configuration is null or empty; otherwise the configured system apps in order |
| CarrierApps.AddAssociatedShape | telephony/java/com/android/internal/telephony/CarrierAppUtils.java:483-497 | one carrier app's entry exists exactly when some associated package is an eligible system app, and no list is empty |
| CarrierApps.AssociatedShape | telephony/java/com/android/internal/telephony/CarrierAppUtils.java:473-499 | the associated-app map has a non-empty list exactly for the carrier apps with an eligible associated app |
| CarrierApps.AssociatedAppsHelper | telephony/java/com/android/internal/telephony/CarrierAppUtils.java:473-499 | the nested loops build the associated-app map the specification gives |
| CarrierApps.DisableCarrierAppsUntilPrivileged | telephony/java/com/android/internal/telephony/CarrierAppUtils.java:131-257 | nothing happens without candidates; otherwise the package-manager actions are the specified policy for the candidates, the associated apps and the handled setting |
| CarrierApps.RunPolicy | telephony/java/com/android/internal/telephony/CarrierAppUtils.java:152-253 | the candidate loop, the handled mark and the permission grant give exactly the specified actions |
| CarrierApps.CandidateStep | telephony/java/com/android/internal/telephony/CarrierAppUtils.java:153-239 | one candidate adds its own action and its associated apps' actions |
| CarrierApps.AppendAssociated | telephony/java/com/android/internal/telephony/CarrierAppUtils.java:218-237 | the associated-app loop adds exactly their specified actions |
| CarrierApps.AssociatedSilentAfterFirstRun | telephony/java/com/android/internal/telephony/CarrierAppUtils.java:218-237 | after the first run, associated apps of an unprivileged carrier app are left alone |
| CarrierApps.AssociatedActionsRespectUser | telephony/java/com/android/internal/telephony/CarrierAppUtils.java:177-237 | associated apps are enabled only for a privileged carrier app from DEFAULT or DISABLED_UNTIL_USED, and disabled only on the first run from DEFAULT |
| CarrierApps.CandidateOwnAction | telephony/java/com/android/internal/telephony/CarrierAppUtils.java:159-213 | a privileged app in DEFAULT or DISABLED_UNTIL_USED is enabled, an unprivileged app in DEFAULT becomes DISABLED_UNTIL_USED, and updated apps or apps the user changed are left alone |
| CarrierApps.NoTelephonyNoGrant | telephony/java/com/android/internal/telephony/CarrierAppUtils.java:155-157 | without a TelephonyManager no app counts as privileged |
| CarrierApps.GrantListsPrivileged | telephony/java/com/android/internal/telephony/CarrierAppUtils.java:242-253 | the permission grant lists exactly the privileged candidates |
| CarrierApps.PolicyTail | telephony/java/com/android/internal/telephony/CarrierAppUtils.java:242-253 | the handled setting is written exactly on the first run, and permissions are granted exactly when some candidate is privileged |
| CarrierApps.LoopActionsKinds | telephony/java/com/android/internal/telephony/CarrierAppUtils.java:153-239 | the candidate loop only changes enabled settings |
| CarrierApps.PrivilegedAppsExact | telephony/java/com/android/internal/telephony/CarrierAppUtils.java:404-426 | the default carrier apps are exactly the candidates with carrier privileges |
| CarrierApps.DefaultCarrierApps | telephony/java/com/android/internal/telephony/CarrierAppUtils.java:404-426 | null without candidates; otherwise the backward removal loop leaves exactly the privileged candidates in order |
| CarrierApps.MatchedSlot | telephony/java/com/android/internal/telephony/CarrierAppUtils.java:355-360 | the matched UICC slot is the lowest slot whose operator matches, or -1 when none does |
| CarrierApps.MatchSlot | telephony/java/com/android/internal/telephony/CarrierAppUtils.java:355-360 | the slot loop stops at the specified slot |
| CarrierApps.ConfigIndex | telephony/java/com/android/internal/telephony/CarrierAppUtils.java:334-340 | the first configuration entry naming the package, or none |
| CarrierApps.SpecialDecisionRule | telephony/java/com/android/internal/telephony/CarrierAppUtils.java:319-388 | updated apps and apps without operator codes are skipped; a match in DEFAULT or DISABLED_UNTIL_USED starts the match service with the lowest matching slot and its carrier name; no match from DEFAULT disables until used; a missing provisioning setting ends the pass |
| CarrierApps.SpecialRespectsUser | telephony/java/com/android/internal/telephony/CarrierAppUtils.java:363-388 | the special pass only disables apps still in DEFAULT and not updated, or starts the match service |
| CarrierApps.Distinct | telephony/java/com/android/internal/telephony/CarrierAppUtils.java:298-299 | the set built from the configured array: the same names, none twice |
| CarrierApps.DisableSpecialCarrierAppsUntilMatched | telephony/java/com/android/internal/telephony/CarrierAppUtils.java:285-395 | nothing for a non-system user; otherwise the specified decisions over the system apps among the distinct configured names, so a name listed twice is acted on once |
| CarrierApps.RunSpecial | telephony/java/com/android/internal/telephony/CarrierAppUtils.java:319-390 | the candidate loop gives the specified actions and stops at a settings failure |
| CarrierApps.SpecialStep | telephony/java/com/android/internal/telephony/CarrierAppUtils.java:320-388 | one candidate's decision is the specified one |
| SimToolkit.FirstWithValue | telephony/java/com/android/internal/telephony/cat/CatService.java:90-97 | the lookup returns an element with the value, or none exactly when no element has it |
| SimToolkit.FirstWithValueFinds | telephony/java/com/android/internal/telephony/cat/CatService.java:90-97 | a value owned by one element finds that element |
| SimToolkit.TagFromInt | telephony/java/com/android/internal/telephony/cat/CatService.java:90-97 | the tag returned carries the value, and null means no tag carries it |
| SimToolkit.TagFromIntOfValue | telephony/java/com/android/internal/telephony/cat/CatService.java:50-97 | every tag is found again from its value |
| SimToolkit.CommandTypeFromInt | telephony/java/com/android/internal/telephony/cat/CatService.java:953 | the command type returned carries the value, and null means no command type carries it |
| SimToolkit.CommandTypeFromIntOfValue | telephony/java/com/android/internal/telephony/cat/CatService.java:953 | every command type is found again from its value |
| SimToolkit.ByteToBcd | telephony/java/com/android/internal/telephony/cat/CatService.java:624-636 | 0-99 become swapped-nibble BCD, the tens digit in the low nibble; anything else becomes 0 |
| SimToolkit.BcdRoundTrip | telephony/java/com/android/internal/telephony/cat/CatService.java:624-636 | reading the BCD byte back gives the value |
| SimToolkit.BcdEncodesEveryDigitPair | telephony/java/com/android/internal/telephony/cat/CatService.java:624-636 | every byte of two decimal nibbles is the BCD of some value |
| SimToolkit.WithBit3 | telephony/java/com/android/internal/telephony/cat/CatService.java:653 | the sign bit is set and the other bits are kept |
| SimToolkit.TzOffsetByte | telephony/java/com/android/internal/telephony/cat/CatService.java:638-654 | getTZOffSetByte: the offset in quarter hours (truncated), semi-octet coded, bit 3 set for a negative offset; TzOffsetRoundTrip states what it reads back as |
| SimToolkit.TzOffsetRoundTrip | telephony/java/com/android/internal/telephony/cat/CatService.java:638-654 | within 80 quarter hours the time-zone byte reads back as the offset in quarter hours, truncated, and its sign bit is set exactly for negative offsets |
| SimToolkit.SignedSemiOctetValue | telephony/java/com/android/internal/telephony/cat/CatService.java:650-653 | the signed semi-octet reads back as the signed value |
| SimToolkit.TerminalResponse | telephony/java/com/android/internal/telephony/cat/CatService.java:431-486 | the terminal response is the command details TLV, the device identities TLV, the result TLV (with the additional information byte when asked), then the optional data |
| SimToolkit.OptionalTags | telephony/java/com/android/internal/telephony/cat/CatService.java:497-538 | only GET INKEY and PROVIDE LOCAL INFORMATION add optional data; GET INKEY adds its duration exactly when the user did not respond and the command had one |
| SimToolkit.TerminalResponseRoundTrip | telephony/java/com/android/internal/telephony/cat/CatService.java:445-479 | parsing a terminal response gives back the command details, result, additional information and optional data |
| SimToolkit.MenuSelectionEnvelope | telephony/java/com/android/internal/telephony/cat/CatService.java:656-691 | the menu selection envelope: tag, patched length, keypad-to-UICC device identities, item identifier and the help request when asked |
| SimToolkit.MenuSelectionRoundTrip | telephony/java/com/android/internal/telephony/cat/CatService.java:656-691 | parsing the envelope gives back the item and the help flag |
| SimToolkit.EventDownloadEnvelope | telephony/java/com/android/internal/telephony/cat/CatService.java:698-770 | the event download envelope: tag, patched length, event list, device identities, then the event's objects and the additional information |
| SimToolkit.LengthPatched | telephony/java/com/android/internal/telephony/cat/CatService.java:689-691 | patching the length byte keeps the tag and the body |
| SimToolkit.EventDownloadRoundTrip | telephony/java/com/android/internal/telephony/cat/CatService.java:698-770 | parsing the envelope gives back the event, the device identities and the body |
| SimToolkit.IsSupportedSetupEventCommand | telephony/java/com/android/internal/telephony/cat/CatService.java:319-338 | an event list is supported exactly when every event in it is one the service handles |
| SimToolkit.ResponseEffect | telephony/java/com/android/internal/telephony/cat/CatService.java:885-1020 | a response to no or another command is ignored; a menu selection sends the envelope; an event response sends the download; TERMINAL_CRNTLY_UNABLE_TO_PROCESS answers with its cause; data goes out only with a performed result |
| SimToolkit.ValidateResponse | telephony/java/com/android/internal/telephony/cat/CatService.java:885-900 | responses to SET UP EVENT LIST and SET UP MENU are always valid; any other is valid exactly when its command details equal the current command's |
| SimToolkit.PerformedEffect | telephony/java/com/android/internal/telephony/cat/CatService.java:953-1000 | a performed result for SET UP MENU sends the menu selection, and every other command gets an answer |
| SimToolkit.ProactiveResult | telephony/java/com/android/internal/telephony/cat/CatService.java:349-408 | exactly the commands the service answers itself get a result at once; SET UP EVENT LIST gets OK exactly when all events are supported; an icon failure changes the code |
| SimToolkit.AppendBytes | telephony/java/com/android/internal/telephony/cat/CatService.java:760-764 | the copy loop appends the additional information |
| SimToolkit.ImmediateResult | telephony/java/com/android/internal/telephony/cat/CatService.java:349-408 | the switch gives the specified immediate result |
| SimToolkit.KeptCarriesInput | telephony/java/com/android/internal/telephony/cat/CatService.java:366-370 | the command kept as current carries the input the response handler reads |
| SimToolkit.CatService.SendTerminalResponse | telephony/java/com/android/internal/telephony/cat/CatService.java:431-495 | without command details nothing is sent; otherwise exactly the specified terminal response |
| SimToolkit.CatService.SendMenuSelection | telephony/java/com/android/internal/telephony/cat/CatService.java:656-696 | sends exactly the menu selection envelope |
| SimToolkit.CatService.EventDownload | telephony/java/com/android/internal/telephony/cat/CatService.java:698-779 | sends exactly the event download envelope |
| SimToolkit.CatService.RespondAtOnce | telephony/java/com/android/internal/telephony/cat/CatService.java:349-408 | the immediate terminal response is sent exactly when there is one |
| SimToolkit.CatService.HandleProactiveCommand | telephony/java/com/android/internal/telephony/cat/CatService.java:345-416 | the immediate response, then the command broadcast except for PROVIDE LOCAL INFORMATION; the command becomes current, and SET UP MENU sets or removes the main menu |
| SimToolkit.CatService.UpdateMenu | telephony/java/com/android/internal/telephony/cat/CatService.java:350-355 | a removal menu clears the main menu; any other replaces it |
| SimToolkit.RemoveMenu | telephony/java/com/android/internal/telephony/cat/CatService.java:902-912 | a missing menu or item list (the caught NullPointerException) or a single null item means the menu is removed |
| SimToolkit.CatService.HandleSessionEnd | telephony/java/com/android/internal/telephony/cat/CatService.java:422-429 | the main menu becomes current again and the session end is broadcast |
| SimToolkit.CatService.HandleCmdResponse | telephony/java/com/android/internal/telephony/cat/CatService.java:914-1020 | each response sends what its effect says, and a terminal response or call setup confirmation ends the current command |
| SimToolkit.HandleRilMsg | telephony/java/com/android/internal/telephony/cat/CatService.java:256-313 | a proactive command decoded with an error is answered at once with its own details, and one without decodable details is answered for command number 0 (the last proactive command); event notifications with an error and call setups send nothing; session end restores the menu |
| CellBroadcast.DecodeDcs | telephony/java/android/telephony/SmsCbMessage.java:210-274 | the coding groups select the encoding (7-bit, 8-bit, UCS-2 or unknown), the language indicator and the language |
| CellBroadcast.DcsLanguageTables | telephony/java/android/telephony/SmsCbMessage.java:211-228 | groups 0 and 2 take the language from their tables |
| CellBroadcast.Octet | telephony/java/android/telephony/SmsCbMessage.java:278-292 | the octet as Java reads it (signed) or as intended (unsigned) |
| CellBroadcast.EvenLow16 | telephony/java/android/telephony/SmsCbMessage.java:591 | the UCS-2 length is even, below 65536, and an in-range length loses at most one byte |
| CellBroadcast.StripCR | telephony/java/android/telephony/SmsCbMessage.java:601-611 | only trailing carriage returns are removed, and all of them, unless the body is nothing but carriage returns |
| CellBroadcast.UnpackBody | telephony/java/android/telephony/SmsCbMessage.java:565-613 | one page's text by encoding; only the UCS-2 String constructor can read outside the PDU, and with unsigned lengths a page inside the PDU never does |
| CellBroadcast.LastNonCR | telephony/java/android/telephony/SmsCbMessage.java:601-611 | the backward scan stops at the last character that is not a carriage return |
| CellBroadcast.StripTrailingCarriageReturns | telephony/java/android/telephony/SmsCbMessage.java:601-611 | the loop strips as specified |
| CellBroadcast.UnpackOtherEncodingsEmpty | telephony/java/android/telephony/SmsCbMessage.java:569-611 | 8-bit and unknown encodings give an empty body |
| CellBroadcast.Unpack16BitEven | telephony/java/android/telephony/SmsCbMessage.java:581-591 | UCS-2 without a language indicator decodes an even number of bytes |
| CellBroadcast.PagesFailurePersists | telephony/java/android/telephony/SmsCbMessage.java:288-300 | a page that fails makes the whole body fail the same way |
| CellBroadcast.ParseBody | telephony/java/android/telephony/SmsCbMessage.java:204-309 | parseBody gives the specified body or failure |
| CellBroadcast.ParsePages | telephony/java/android/telephony/SmsCbMessage.java:286-301 | the page loop gives the specified concatenation or failure |
| CellBroadcast.ParsePage | telephony/java/android/telephony/SmsCbMessage.java:291-299 | one page is checked and appended as specified |
| CellBroadcast.CreateFromPdu | telephony/java/android/telephony/SmsCbMessage.java:176-202 | a bad header or an IllegalArgumentException gives null; an ETWS primary message has body "ETWS" and carries its signature exactly when the PDU is long enough; otherwise the parsed body and language |
| CellBroadcast.CorrectedPagesOutcome | telephony/java/android/telephony/SmsCbMessage.java:276-300 | with unsigned octets no page throws an index exception, and the body is rejected exactly when some page length exceeds 82 |
| CellBroadcast.CorrectedUmtsNeverThrows | telephony/java/android/telephony/SmsCbMessage.java:276-300 | with unsigned octets a UMTS body is rejected exactly when the PDU is too short for its pages or a page is too long, and never throws |
| CellBroadcast.SignedPageLengthThrows | telephony/java/android/telephony/SmsCbMessage.java:292-299 | as written, a page length octet 0xFF passes the check and throws an index exception |
| CellBroadcast.ShortLanguagePageThrows | telephony/java/android/telephony/SmsCbMessage.java:582-591 | as written, a one-byte UCS-2 page with a language indicator throws an index exception |
| CellBroadcast.WriteToParcel | telephony/java/android/telephony/SmsCbMessage.java:365-386 | the parcel carries an ETWS, CMAS or "none" discriminator that matches the warning info present |
| CellBroadcast.ParcelRoundTrip | telephony/java/android/telephony/SmsCbMessage.java:329-386 | reading the parcel back gives the message, except that ETWS info hides CMAS info |
| CellBroadcast.ReadFromParcel | telephony/java/android/telephony/SmsCbMessage.java:329-356 | the Parcel constructor reads at most one kind of warning info, and for a discriminator writeToParcel writes, writing the message back gives the items read |
| HttpIdleCache.Live | core/java/android/net/http/IdleCache.java:51-55 | the number of occupied slots never exceeds the capacity |
| HttpIdleCache.FirstFree | core/java/android/net/http/IdleCache.java:84-88 | the first empty slot, with every earlier slot occupied |
| HttpIdleCache.FindHost | core/java/android/net/http/IdleCache.java:109-116 | the first slot holding the host, with no earlier slot holding it |
| HttpIdleCache.LiveUpdate | core/java/android/net/http/IdleCache.java:51-55 | replacing one slot changes the count by that slot's occupancy only |
| HttpIdleCache.LiveZeroAllFree | core/java/android/net/http/IdleCache.java:51-55 | a count of zero means every slot is empty |
| HttpIdleCache.LiveFull | core/java/android/net/http/IdleCache.java:51-55 | a full count means every slot is occupied |
| HttpIdleCache.LiveAllOccupied | core/java/android/net/http/IdleCache.java:51-55 | every slot occupied means a full count |
| HttpIdleCache.FreeSlotExists | core/java/android/net/http/IdleCache.java:84-88 | an empty slot exists exactly when the cache is not full |
| HttpIdleCache.CachedIsFound | core/java/android/net/http/IdleCache.java:88-116 | after caching, a lookup of the host finds the new connection unless an earlier slot already held the host |
| HttpIdleCache.IdleCache.constructor | core/java/android/net/http/IdleCache.java:63-69 | the cache starts with every slot empty |
| HttpIdleCache.IdleCache.CacheConnection | core/java/android/net/http/IdleCache.java:75-104 | caching succeeds exactly when the cache is not full, and fills the first empty slot with the host, the connection and its deadline |
| HttpIdleCache.IdleCache.GetConnection | core/java/android/net/http/IdleCache.java:106-124 | returns and removes the connection in the first slot for the host, or returns null and changes nothing |
| HttpIdleCache.IdleCache.SweepSlots | core/java/android/net/http/IdleCache.java:133-171 | the sweep vacates exactly the doomed slots and closes their connections in slot order |
| HttpIdleCache.IdleCache.SweepSlot | core/java/android/net/http/IdleCache.java:156-170 | one slot of the sweep keeps the count and the closed log consistent |
| HttpIdleCache.IdleCache.Clear | core/java/android/net/http/IdleCache.java:133-143 | every connection is closed and the cache is empty |
| HttpIdleCache.IdleCache.ClearTcpConnections | core/java/android/net/http/IdleCache.java:145-154 | every cached connection loses its TCP pre-connect mark and nothing else changes |
| HttpIdleCache.IdleCache.ClearIdle | core/java/android/net/http/IdleCache.java:156-171 | exactly the entries past their deadline without a TCP pre-connect are closed and vacated |
| NfcTagTechnology.TagTechnology.constructor | core/java/android/nfc/tech/BasicTagTechnology.java:38-41 | a new technology object is bound to its tag and technology, and not connected |
| NfcTagTechnology.TagTechnology.CheckConnected | core/java/android/nfc/tech/BasicTagTechnology.java:49-54 | passes exactly when the tag is connected with this technology; otherwise IllegalStateException |
| NfcTagTechnology.TagTechnology.IsConnected | core/java/android/nfc/tech/BasicTagTechnology.java:65-76 | true exactly when connected and the service reports the tag present; a dead service means false |
| NfcTagTechnology.TagTechnology.Connect | core/java/android/nfc/tech/BasicTagTechnology.java:79-95 | success exactly when the service answers SUCCESS, which connects the tag with this technology; otherwise IOException with nothing changed |
| NfcTagTechnology.TagTechnology.Reconnect | core/java/android/nfc/tech/BasicTagTechnology.java:98-117 | not connected: IllegalStateException; success keeps the connection; failure or a dead service: IOException and disconnected |
| NfcTagTechnology.TagTechnology.Close | core/java/android/nfc/tech/BasicTagTechnology.java:120-132 | whatever the service answers, the tag ends disconnected |
| NfcTagTechnology.TagTechnology.Transceive | core/java/android/nfc/tech/BasicTagTechnology.java:135-159 | not connected: IllegalStateException; otherwise the response bytes, TagLostException, or IOException for any other failure or a dead service |

## Left out

- The text parsing of radio attribute and network attribute strings: the
  model takes the parsed entries, or None where a string does not parse.
- Framework constants that are not part of this model (MAX_RADIO_TYPE,
  MAX_NETWORK_TYPE, TYPE_*, FEATURE_*, the settings keys) are parameters:
  table sizes, a `TypeIds` record and a `FeatureNames` record, from whose
  strings FeatureOf builds the `Feature` datatype.
- `net.dnschange` is kept as a counter. Its string form and the
  property-name spelling are not modelled.
- The vendor-specific QUALCOMM_CMCC/FeatureQuery branches are not
  modelled anywhere. The model takes FEATURE_WLAN_CMCC_SUPPORT as off and
  follows the generic path in startUsingNetworkFeature, in tryFailover
  (ConnectivityService.java:1790), in handleConnect's two teardown
  conditions (2146 and 2159) and in the state-change handler (2844).
- Broadcasts, intents, logging, notifications and the Handler message queue
  are left out. Delayed messages are a `pending` log of what would be sent.
- RouteInfo.selectBestRoute and RouteInfo.isHostRoute are the `RouteInfo`
  parameter; RouteInfo.java is not part of this model.
- Routes.GatewayRoute: which routes isHostRoute accepts is left open, so
  how deep the gateway recursion goes (and whether the guard at
  MAX_HOSTROUTE_CYCLE_COUNT fires) depends on that parameter;
  GatewayRecursionDepthOne states depth one only under its hypothesis.
- Routes.HostRoute: RouteInfo.makeHostRoute's prefix (32 or 128 bits by
  address family) is the `Host` prefix value, because address families are
  not modelled.
- Routes.Minus: LinkProperties.compareRoutes and compareDnses are not part
  of this model; they are read as the list difference in both directions
  (removed: current items missing from the new list; added: new items
  missing from the current one), in list order.
- Tracker creation at start-up and the tracker classes are not modelled:
  trackers are records with the flags the service reads, and the service's
  calls to them are a log with the tracker's answer as a parameter.
- handleConnectivityChange and updateNetworkSettings (interface addresses,
  proxies, TCP buffer sizes) are not modelled beyond the route and DNS
  updates above.
- Binder death notifications (binderDied, unlinkDeathRecipient), caller
  permissions, protected networks and data-activity tracking are left out.
- Connectivity.ConnectivityService.Stop: requires SecondaryTrackersPresent
  (every configured secondary type has a tracker). The DNS reassessment
  reads secondary trackers, and the source dereferences them without a null
  check.
- Feature users are told apart by a request id (`nextUserId`) standing for
  object identity.
- Where the source both tears down a network and reassesses DNS, the model
  logs the calls and the property writes separately. Their relative order
  across the two logs is not captured.
- Priority direction: the model follows the code, where a larger priority
  value ranks higher and comes first in the priority list.
- The integer result -1 of startUsingNetworkFeature is the `NotSupported`
  case of a result datatype.
- NetworkConfigs.RestoreDefaultNetworkDelay: requires a non-negative
  network type. The source would index the configuration array with a
  negative type and throw, and its callers pass only valid types.
- The idle connection reaper thread and its timing, setShutdownFeature and
  a null host passed to cacheConnection are left out. Time is a parameter.
- Tag.java is not part of this model. Its connected technology is a field,
  with -1 standing for setTechnologyDisconnected.
- CommandDetails comparison (compareTo) is taken as equality of the
  details.
- The local information payload (getPliResponse) and ResponseData.format
  are function parameters. So are the date and time octets.
- The GSM 7-bit and UTF-16 text decoders are function parameters.
- SmsCbHeader parsing, the location, the ETWS timestamp and the ETWS/CMAS
  warning info contents are not part of this model; the header is an
  already parsed value.
- SimToolkit.HandleRilMsg: states what is sent for failed decodes, event
  notifications with an error, call setups and session ends. For a decoded
  proactive command it relies on HandleProactiveCommand's contract rather
  than restating it.
- CarrierApps.DisableSpecialCarrierAppsUntilMatched: walks the distinct
  configured names in configuration order; the ArraySet the source builds
  iterates in hash order, which is not modelled. The same holds for the
  ArraySet of carrier apps DisableCarrierAppsUntilPrivileged receives, taken
  as a list in its iteration order.
- CarrierApps.DisableSpecialCarrierAppsUntilMatched: requires the three
  configuration arrays to have equal length and one operator name per SIM
  slot. The source indexes them in parallel and would throw otherwise.
- RemoteException, SettingNotFoundException and other exceptions from other
  services: the model covers only the missing provisioning setting, which
  ends the special-app pass.
- DnsProperties.DnsProperties.UpdateDns: netd is taken to accept both calls.
  In the source both calls share one try block (ConnectivityService.java:2657-2663),
  so a failing setDnsServersForInterface would skip setDefaultInterfaceForDns;
  the model always logs both.
- NfcTagTechnology.TagTechnology.Connect: Tag.setConnectedTechnology is taken
  to always succeed. If Tag refuses it (another technology already
  connected), connect() would throw after the service has connected, leaving
  mIsConnected false. The contract "success exactly on SUCCESS" relies on
  that write succeeding.

## Findings

| source | as written | input that shows it | evidently intended | confidence | as-written member | corrected member |
|---|---|---|---|---|---|---|
| services/java/com/android/server/ConnectivityService.java:493-514 | the priority-list loop starts at level 0 and skips every priority below the current level, so a negative priority is never placed | one configured type with priority -1: the loop never ends; types 0 and 1 with priorities 1 and -1: the list is [0, 0] | start from the lowest configured priority, so every configured type is placed exactly once | not executed | PriorityList.NegativePriorityNeverFinishes | PriorityList.BuildPriorityList |
| telephony/java/android/telephony/SmsCbMessage.java:276-299 | page counts and page lengths are read as signed Java bytes, and a UCS-2 page loses two bytes for its language without a length check (lines 585-591) | a one-page UMTS PDU with coding scheme 0x48 and page length octet 0xFF; or coding scheme 0x11 with page length 1: both throw an index exception instead of returning null | read octets as unsigned (0xFF is then rejected as too long), and clamp a negative UCS-2 length to 0 | not executed | CellBroadcast.SignedPageLengthThrows | CellBroadcast.CorrectedUmtsNeverThrows |
| services/java/com/android/server/ConnectivityService.java:2699-2705 | each pid's result of writePidDns overwrites `changed` instead of being or-ed into it | requester pids [1, 2] where only pid 2 already holds the server: pid 1's slots are written but the resolver is not bumped | bump DNS when any pid's slots changed | not executed | DnsProperties.StaleFirstPidNotReported | DnsProperties.AttachedPidDnsExact |
