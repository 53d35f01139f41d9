# Verification of the control point's discovery cache and its neighbours

A Dafny 4.11 model of the parts of this UPnP library whose correctness is
hardest to see from the code: the discovery cache of the control point, which
fetches device descriptions without its lock and revalidates before it
publishes; the replacement of a live device tree; the enumerations of a device
tree and of a ContentDirectory; and the eventing and filtering state machines
on both sides of the protocol. `dafny verify dfyconfig.toml` checks all of it.

| file | what it models |
|---|---|
| `Text.dfy`, `Sequences.dfy` | C strings that may be NULL and the library's comparisons on them; facts about sequences |
| `DeviceTree.dfy`, `DeviceUpdate.dfy` | device trees as values: structure test, lookups, carrying subscriptions over, the two update paths |
| `DeviceObjects.dfy`, `DeviceRemoval.dfy` | the same on objects in intrusive lists with parent and owner pointers, updated in place; taking an embedded device out |
| `DeviceCache.dfy` | the device list of the control point: from any device to its root, refreshing, updating, adding and removing roots in place |
| `Discovery.dfy` | the locked regions of the discovery protocol, and the transition system of all their interleavings |
| `ControlPoint.dfy` | the locked regions on the control point object, with its linked list of pending fetches and its list of device objects |
| `Ledger.dfy`, `DiscoveryInvariant.dfy` | what every reachable state satisfies, including ownership of every device object |
| `DiscoveryRuns.dfy` | theorems over whole runs: order of publications, invalidation |
| `DiscoveryStopping.dfy` | how a stop ends, and what is left after it |
| `DiscoverySubscriptions.dfy` | subscriptions through runs |
| `DiscoveryInterval.dfy` | what may happen between a reservation and its commit: what supersedes a call, what disturbs the root it found |
| `DiscoveryCommit.dfy` | compare-and-commit, the partial scan |
| `DiscoveryOutcomes.dfy`, `DiscoveryByebye.dfy` | what reservations, arrivals, commits and byebyes do, in terms of the devices that the cached descriptions list |
| `DiscoveryFamilies.dfy`, `DiscoveryOverlap.dfy` | no ABA between reservation and commit, and a run with ABA when descriptions overlap |
| `DiscoveryRefinement.dfy` | the concurrent path without contention against the sequential update |
| `Enumeration.dfy` | alive, byebye and search enumeration of a hosted device tree |
| `Browse.dfy`, `BrowseOrder.dfy` | the budgeted depth-first browse of the example programs |
| `EventKey.dfy`, `EventDelivery.dfy` | subscriptions, event keys and state tables at the control point; which service a notification reaches |
| `Subscribers.dfy`, `SubscriberRuns.dfy`, `SubscriberTimes.dfy` | the subscriber list of a hosted service, over runs and as one subscription sees it |
| `SearchFilter.dfy` | the table that suppresses repeated searches |

A step of the discovery system is one region that holds the control point's
mutex, or one arrival of a description; a run is any sequence of enabled steps
from the initial state, with any number of calls in flight and any description
or failure as the result of any fetch. Where an operation changes fields, it is
a method on a class, proved to compute the function of the value model; the
theorems are about those functions and about runs of them.

Results that differ from what one might expect of the code:

- An announcement can leave its UDN without a live fetch: the scan of the
  pending list marks entries before it meets one with the same LOCATION and
  gives up (`AnnouncementCanLeaveNoFetch`; `AnnouncedFetchIsLiveIff` says when).
- The LOCATION that a fetch compares at its commit does not identify a root:
  when the descriptions of two roots claim the same device, a publishing fetch
  can find another root than at its reservation (`AnotherRootCanBeFound`;
  `UndisturbedIff` says exactly which commits in between make the difference).
- The concurrent path and `mupnp_device_updatefromssdppacket` differ in two
  cases, in which only the latter accepts a description: one that is like the
  cached one but whose SCPDs cannot be read, and one that no longer lists the
  embedded device that was announced (`UncontendedRefinesSequential`; an input
  in `PathsCanDiffer`).
- The browse can request the empty object id more than once, because the
  dictionary never finds an empty key (`NeverRepeatsIff`; an input in
  `EmptyIdRepeats`).
- A search is answered with the advertised lines that match the target only if
  the target's kind fits: a device type that contains "uuid" is not answered
  for, and a target that merely contains "upnp:rootdevice" is
  (`AnswersAreMatchingLinesIff`; inputs in `UuidTypeIsNotAnswered` and
  `LongerRootTargetIsAnswered`).
- The device side numbers notifications up to 2^32 - 1, the control point
  expects 1 after 2^31 - 1, so a subscription that gets that far is dropped and
  made again (`OwnPublisherIsInSequenceIff`).
- The losses that an event key cannot notice are whole cycles and message 0
  (`LossDetectedIff`, `FirstLossUnnoticed`).
- Two different searches can share a slot of the filter, so a first search can
  be suppressed (`ReorderedTargetsCollide`; an input in
  `FirstSearchCanBeSuppressed`).

Where documentation and code disagree, the code is modelled: stopping clears
the device list, although include/mupnp/controlpoint.h:263 says it is retained;
and `mupnp_streq` finds two NULL strings different, although
include/mupnp/util/string.h:148 says they are equal.

## Model

| member | source | states |
|---|---|---|
| DeviceTree.SameStructureIffSkeleton | src/mupnp/device.c:338-388 | the structure test holds exactly when the two trees are equal after reading missing strings as empty: UDN, type, the five service values, order and counts |
| DeviceTree.SameStructureIsEquivalence | src/mupnp/device.c:338-388 | it is reflexive, symmetric and transitive |
| DeviceTree.FindByUdnIsFirst | src/mupnp/device.c:390-405 | the search for a UDN finds the first device in document order that has it, whenever there is one |
| DeviceTree.ServiceAtIsFirst | src/mupnp/device.c:410-437 | the service at an address is the first service with the id in the first device with the UDN |
| DeviceTree.ServiceBySidIsFirst | src/mupnp/device.c:2031-2059 | lookup by SID finds the first subscribed service in document order that has the SID |
| DeviceTree.CopyKeepsSubscriptionAtAddress | src/mupnp/device.c:410-437 | at every address (owner UDN, serviceId) the new tree ends with the old subscription, whole, if that address was subscribed, and otherwise unchanged |
| DeviceTree.NoSidInvented | src/mupnp/device.c:410-437 | if the new tree comes without subscriptions, every SID after the copy is one the cached tree held at the same address, with the same timeout, timestamp and event key |
| DeviceTree.SidReachesSameAddress | src/mupnp/device.c:410-437 | if the new tree comes without subscriptions and services that share a SID in the old one are at one address, looking up a carried SID after the copy reaches a service at its old address with its old event key |
| DeviceUpdate.UpdateFromDevice | src/mupnp/device.c:483-500 | succeeds exactly for a description of the same UDN, changes nothing otherwise, and never changes the UDN |
| DeviceUpdate.UpdateShowsNewDescription | src/mupnp/device.c:483-500 | an accepted update leaves the device with the new description's structure, LOCATION and port; the old tree itself stays exactly when structure and CONFIGID are unchanged, and otherwise the new one takes its place, whole but for subscriptions, and the old one goes to the other object |
| DeviceUpdate.UpdateKeepsSubscriptions | src/mupnp/device.c:483-500 | whichever branch an update takes, a subscription whose address the new description still has is kept |
| DeviceObjects.HasSameStructure | src/mupnp/device.c:351-388 | the paired walk over the object lists decides the structure test on the trees they stand for |
| DeviceObjects.FindByUdnInTree | src/mupnp/device.c:390-405 | the recursive search over the object lists returns the first device in document order |
| DeviceObjects.FoundIsFind | src/mupnp/device.c:390-405 | that object is the one whose value the search on values finds, and it lies in the tree |
| DeviceObjects.CopyOneSubscription | src/mupnp/device.c:418-431 | the inner loop copies all four fields from the first old service with the id, or nothing |
| DeviceObjects.CopySubscriptions | src/mupnp/device.c:410-437 | in place, the new tree becomes the copy that DeviceTree defines, and only subscription fields of the new tree are written |
| DeviceObjects.SwapDescription | src/mupnp/device.c:442-479 | each object keeps identity, parent and list position and takes over the other's tree; in both trees every child and service points to the object whose list holds it |
| DeviceObjects.SwapTwice | src/mupnp/device.c:442-479 | swapping twice restores both trees and every back pointer |
| DeviceObjects.UpdateFromDeviceInPlace | src/mupnp/device.c:483-500 | the in-place update computes UpdateFromDevice, leaves the replaced tree with the other object, and keeps both trees linked and apart |
| DeviceObjects.UpdateFromSsdpPacketInPlace | src/mupnp/device.c:511-621 | the sequential update in place computes UpdateFromSsdpPacket for every LOCATION, parse result and SCPD result |
| DeviceRemoval.PruneInPlace | src/mupnp/device.c:95-131 | unlinking the first device with the UDN below a root leaves a linked tree whose value is that of Discovery.Prune |
| DeviceCache.FoundHasPath | src/mupnp/device.c:390-405 | what a search finds lies on a path of embedded devices from the root of its tree |
| DeviceCache.GetRootDevice | src/mupnp/device.c:172-185 | the walk along parent pointers reaches the root of the tree from every device in it |
| DeviceCache.DeviceCache.GetRootDeviceByUdn | src/mupnp/controlpoint.c:555-582 | the search over the list of roots, followed by that walk, ends at the first root whose tree has the UDN, or nowhere if no tree has it |
| DeviceCache.DeviceCache.RefreshRoot | src/mupnp/controlpoint.c:729-731 | the packet of that root object is replaced; every other root, and the list, stay as they are |
| DeviceCache.DeviceCache.UpdateRootAt | src/mupnp/controlpoint.c:785-790 | the in-place update of a root in the list: its description becomes what Discovery.UpdateRoot says, the candidate is left with the other one, the other roots stay, and no object is shared |
| DeviceCache.DeviceCache.AddDevice | src/mupnp/util/list.c:123-138 | the candidate becomes the last root of the list |
| DeviceCache.DeviceCache.UnlinkRoot | src/mupnp/util/list.c:144-159 | exactly that root leaves the list |
| DeviceCache.DeviceCache.CommitDevice | src/mupnp/controlpoint.c:776-809 | update, add or reject on the objects does to the list what Discovery.CommitRoots says, and returns the object that the call has to delete |
| DeviceCache.DeviceCache.Remove | src/mupnp/controlpoint.c:861-876 | the first device with the UDN leaves the list it is in: a root the list of roots, an embedded device that of its parent |
| Discovery.Scan | src/mupnp/controlpoint.c:745-752 | whether the LOCATION is pending already, and that entries are only ever marked |
| ControlPoint.ScanPending | src/mupnp/controlpoint.c:745-752 | the loop over the linked list marks exactly as Scan does and stops at the first equal LOCATION |
| ControlPoint.UnlinkFetch | src/mupnp/controlpoint.c:815-820 | the pointer-to-pointer loop takes exactly the call's own fetch out of the list |
| ControlPoint.ControlPoint.Reserve | src/mupnp/controlpoint.c:717-763 | the first locked region takes the fields and the device objects where Discovery.Reserve says, and pushes its fetch in front |
| ControlPoint.ControlPoint.Commit | src/mupnp/controlpoint.c:774-820 | the second locked region takes the fields and the device objects where Discovery.Commit says, and its leftover object is the one to delete |
| ControlPoint.ControlPoint.Remove | src/mupnp/controlpoint.c:858-878 | a byebye advances the epoch and removes what Discovery.Remove says |
| ControlPoint.ControlPoint.BeginStop | src/mupnp/controlpoint.c:308-311 | stopping is set and the epoch advanced, nothing else |
| ControlPoint.ControlPoint.FinishStop | src/mupnp/controlpoint.c:346-371 | with no fetch pending the device list is emptied, nothing else |
| ControlPoint.ControlPoint.Restart | src/mupnp/controlpoint.c:193-195 | stopping is reset, nothing else |
| DiscoveryInvariant.UnlinkKeepsOthers | src/mupnp/controlpoint.c:815-820 | unlinking removes one entry, the call's own |
| DiscoveryInvariant.ReserveCases | src/mupnp/controlpoint.c:717-763 | the five ways a reservation ends; a new entry supersedes every entry with its UDN or root UDN and has a LOCATION of its own, and the call records the LOCATION of the root it found, if any |
| DiscoveryInvariant.CommitRootsCases | src/mupnp/controlpoint.c:776-809 | a commit leaves the root list alone, appends the candidate, whose UDN no cached tree knows, or updates one root in place, and nothing else |
| DiscoveryOutcomes.ReserveOutcome | src/mupnp/controlpoint.c:717-763 | each of the five answers to an announcement if and only if: ignored without a UDN or LOCATION; rejected while stopping; refreshed if the first root that lists the announced device, as root or embedded, has the announced LOCATION; joined if a fetch of that LOCATION is pending; reserved otherwise |
| DiscoveryOutcomes.ReserveEffect | src/mupnp/controlpoint.c:717-763 | what each answer changes: a refresh the packet of exactly that root; a join or a reservation the marks of the rivals before the first fetch of the LOCATION; a reservation also adds its entry and records epoch and LOCATION of the root found |
| DiscoveryOutcomes.AnythingCanHappen | src/mupnp/controlpoint.c:714-878 | the runs leave the network free: anything may be announced or taken back in every state, a download may fail or bring any description with a root UDN, and a call that has its answer may commit |
| DiscoveryOutcomes.ArrivalIsKeptIff | src/mupnp/controlpoint.c:765-772 | a call keeps what arrived for it if and only if some device of the description, root or embedded, has the announced UDN; the candidate has that very description and the announced packet |
| DiscoveryOutcomes.CommitOutcome | src/mupnp/controlpoint.c:776-809 | for a commit that passed the publish test, the status, whether listeners are told and what is deleted, each if and only if by the cached devices, the recorded LOCATION and the candidate |
| DiscoveryOutcomes.UntestedOutcome | src/mupnp/controlpoint.c:774-809 | a superseded or overtaken commit tells no one, changes no root and deletes what it fetched |
| DiscoveryOutcomes.UpdateEffect | src/mupnp/controlpoint.c:785-790 | an updating commit changes one root: same object, new description exposed at the new LOCATION, the replaced description left with the candidate object; nothing if the description is of another root |
| DiscoveryOutcomes.FetchedRootIsAdded | src/mupnp/controlpoint.c:765-805 | over runs: a description that lists the announced device, root or embedded, becomes one more root when its call publishes, if no cached tree lists the announced UDN or the description's root UDN |
| DiscoveryInvariant.CommitKeepsOwnership | src/mupnp/controlpoint.c:786-809 | committing moves the candidate into the list or to the deleted, and after a swap it is the old tree that is deleted |
| DiscoveryInvariant.StepKeepsInv | src/mupnp/controlpoint.c:714-826 | every step of every thread keeps the whole invariant: distinct root UDNs, pending list equal to the calls in flight, distinct LOCATIONs, distinct live UDNs and root UDNs, conserved ownership |
| DiscoveryRuns.RunsKeepInv | src/mupnp/controlpoint.c:714-826 | every state of every run satisfies the invariant |
| DiscoveryRuns.CallThroughRun | src/mupnp/controlpoint.c:742-763 | a reservation stays as made, its superseded flag never reverts, and a call that ended never comes back |
| DiscoveryRuns.PublicationsInReservationOrder | src/mupnp/controlpoint.c:742-820 | two fetches with one UDN or one recorded root UDN that both publish have disjoint reserve-to-commit intervals, in order |
| DiscoveryInterval.PublishesIffNotOvertaken | src/mupnp/controlpoint.c:742-776 | a commit publishes exactly when no step since its reservation was a byebye, the beginning of a stop, or an announcement whose scan reached the call's entry and was about the same UDN or root |
| DiscoveryInterval.UndisturbedIff | src/mupnp/controlpoint.c:753-805 | through the whole interval of a publishing call the root found at its reservation stays the same object with the same description and LOCATION, and the first in which the UDN occurs, exactly when no commit in between updates that root or brings the UDN into an earlier one |
| DiscoveryInterval.DisturbersAreForeign | src/mupnp/controlpoint.c:742-805 | such a commit can only be that of a call with another UDN and another recorded root UDN |
| DiscoveryStopping.StoppingDrains | src/mupnp/controlpoint.c:721-725 | while stopping the pending list never grows, and each commit takes out exactly its own entry |
| DiscoveryStopping.WaitEndsAfterWork | src/mupnp/controlpoint.c:348-350 | during the wait of a stop the steps of calls are at most the work at its start (2 for a call that downloads, 1 for one that has its answer), and after that many the stop can end; no other step adds work |
| DiscoveryStopping.StopCanEndIff | src/mupnp/controlpoint.c:348-350 | a stop can end exactly when no work is left |
| DiscoveryStopping.StopCanBeReached | src/mupnp/controlpoint.c:348-350 | from every waiting state there are steps of calls after which the stop can end, if each download returns, with or without a description |
| DiscoveryStopping.StoppedStaysEmpty | src/mupnp/controlpoint.c:346-372 | the list is cleared with no fetch in flight, and cache, pending list and calls stay empty until the next start |
| DiscoveryStopping.StoppedHasFreedEverything | src/mupnp/controlpoint.c:808-809 | after a stop every device object and description tree ever created has been deleted, each once |
| DiscoverySubscriptions.StepKeepsSubscription | src/mupnp/controlpoint.c:714-878 | no step costs or changes a subscription, as long as its address is in the description of its root object, except the end of a stop, a change of that very subscription, and a byebye for its device or one that its device is embedded in |
| DiscoverySubscriptions.SubscriptionsSurvive | src/mupnp/controlpoint.c:714-878 | over runs without such a step, and with the address in the description all the time, the subscription is the same at the end, SID, timeout, timestamp and event key, whatever happens to other devices, byebyes of embedded ones included, to other services and to the place of the root in the list |
| DiscoveryCommit.CompareAndCommit | src/mupnp/controlpoint.c:753-805 | over runs, with the cache at the reservation and at the commit of one call: a call that found nothing cached only appends; at most one root changes, only if its LOCATION is that of the root found at the reservation, and it keeps place, object and UDN; neither the UDN of an appended root nor the announced one occurs in any tree cached before; without passing the publish test nothing changes |
| DiscoveryCommit.AnnouncedFetchIsLiveIff | src/mupnp/controlpoint.c:717-763 | for every announcement, exactly when an unsuperseded fetch of its UDN is pending after it |
| DiscoveryCommit.AnnouncementCanLeaveNoFetch | src/mupnp/controlpoint.c:745-752 | a run in which an announced UDN loses its only live fetch to an announcement of its own |
| DiscoveryCommit.ByebyeRemoves | src/mupnp/controlpoint.c:858-878 | a byebye removes at least one cached device with the UDN if there is one, and adds none |
| DiscoveryByebye.ByebyeOfUnknown | src/mupnp/controlpoint.c:858-878 | a byebye for a device that no cached description lists changes only the epoch |
| DiscoveryByebye.ByebyeOfRoot | src/mupnp/controlpoint.c:858-878 | a byebye for a root takes out exactly that root |
| DiscoveryByebye.ByebyeOfEmbedded | src/mupnp/controlpoint.c:858-878 | a byebye for an embedded device keeps every root with its object, description, packet and place; the tree of the one concerned loses exactly the first device with the UDN and those below it, every other device keeping its place, node and services |
| DiscoveryByebye.OutlineDetermines | src/mupnp/device.c:95-131 | the list of devices with depth, node and services, in which that loss is stated, is the whole tree |
| DiscoveryFamilies.NoAba | src/mupnp/controlpoint.c:753-805 | if the announced UDN belongs to a family of UDNs that the descriptions that arrive before the commit only mention under one root UDN, a publishing call that found a root cached finds the same root at commit: same place, object, description and LOCATION |
| DiscoveryFamilies.ChildlessIsFamily | src/mupnp/controlpoint.c:774-805 | a description that mentions the UDN only where it has no embedded devices satisfies the hypothesis of NoAba for that UDN alone |
| DiscoveryFamilies.NoAbaForChildless | src/mupnp/controlpoint.c:753-805 | so the same holds for a UDN whose descriptions have no embedded devices, whatever the other descriptions are |
| DiscoveryOverlap.AnotherRootCanBeFound | src/mupnp/controlpoint.c:753-805 | a run of twelve steps in which two roots claim a device, and a call that publishes finds another root object at its commit than at its reservation |
| DiscoveryRefinement.UncontendedRefinesSequential | src/mupnp/controlpoint.c:714-790 | with nothing interleaved, announcing any device of a cached root does to that root what mupnp_device_updatefromssdppacket does, and nothing else, except exactly when an unchanged description has unreadable SCPDs or the new one does not list the announced device; then the cache stays as it was |
| DiscoveryRefinement.UncontendedIsRun | src/mupnp/controlpoint.c:714-826 | with no fetch pending, the announcement, the arrival and the commit of the call are steps of the system that lead to what the uncontended path gives |
| DiscoveryRefinement.PathsCanDiffer | src/mupnp/device.c:580-600 | a cached root, a packet and a description on which the two paths differ |
| Enumeration.AnnounceFrom | src/mupnp/device.c:1371-1404 | alive announcements list the advertised (NT, USN) pairs, device by device in document order |
| Enumeration.ByebyeFrom | src/mupnp/device.c:1466-1493 | byebye announcements list the same pairs in the same order |
| Enumeration.AdvertisedIff | src/mupnp/device.c:1371-1404 | a pair is advertised if and only if it is a line of some device of the tree: root device (for a root), type, UDN or service, each under that device's own UDN |
| Enumeration.LinesInOrder | src/mupnp/device.c:1371-1404 | the device's own lines come first: root device, type, UDN, services in order |
| Enumeration.OwnAnswersIff | src/mupnp/device_ssdp_server.c:112-146 | a device's own answers are its own advertised lines with NT equal to the target if and only if the target fits the device |
| Enumeration.ServiceAnswersIff | src/mupnp/service_ssdp_server.c:32-48 | a service's answer is its advertised line if NT equals the target, if and only if the target fits the type |
| Enumeration.AnswerSearch | src/mupnp/device_ssdp_server.c:112-152 | the recursive answer is the answers of all devices in document order |
| Enumeration.AllAnswersAreAdvertised | src/mupnp/device_ssdp_server.c:114-128 | ssdp:all answers are exactly the advertised pairs |
| Enumeration.MessageCount | src/mupnp/device.c:1371-1404 | 3 + 2d + k messages for a root with d embedded devices and k services |
| Enumeration.AnswersAreMatchingLinesIff | src/mupnp/device_ssdp_server.c:112-152 | answers are the advertised pairs filtered by NT equal to the target, in order, if and only if the target fits every device and service of the tree |
| Enumeration.UsualTargetsFit | src/mupnp/device_ssdp_server.c:129-146 | they are so for upnp:rootdevice, a uuid and a urn that no thing of another kind is named by |
| Enumeration.UuidTypeIsNotAnswered | src/mupnp/device_ssdp_server.c:129-146 | a device whose type contains "uuid" does not answer a search for that type, although it advertises it |
| Enumeration.LongerRootTargetIsAnswered | src/mupnp/device_ssdp_server.c:129-146 | a target that is longer than upnp:rootdevice is answered by a root, although no advertised line has it |
| Browse.Browsed | examples/common/content_directory.h:31-62 | the requests made so far are only extended, to 1024 at most |
| Browse.Budget.BrowseDirectory | examples/common/content_directory.h:31-62 | terminates for every server, counts every request, and makes the requests that Browsed defines |
| Browse.Budget.PrintChildren | examples/common/content_directory.h:14-29 | the loop over the result descends into containers in order |
| Browse.NeverRepeatsIff | examples/common/content_directory.h:33-36 | no id is requested twice, whatever the server answers, if and only if the empty id is not in use |
| Browse.BrowseVisitsExactlyReachable | examples/common/content_directory.h:31-62 | on a fixed graph within the limits (1024 reachable containers, simple paths of 64) the requests are the reachable containers, each once |
| Browse.FewContainersFit | examples/common/content_directory.h:33-36 | 64 reachable containers are always within the limits |
| BrowseOrder.BrowseIsDocumentOrder | examples/common/content_directory.h:14-62 | on a tree of containers with different ids the requests are the first 1024 containers in document order, counting the first 64 levels only and nothing below a failed request |
| EventKey.ClientService.SubscribeTo | src/mupnp/controlpoint_event.c:241-297 | a new subscription clears the event key before the request, a renewal does not; failure clears the SID; without a root device nothing changes |
| EventKey.ClientService.RenewSubscription | src/mupnp/controlpoint_event.c:201-235 | a renewal replaces SID, timeout and timestamp, or clears the SID; without a subscription or a root device nothing changes |
| EventKey.ClientService.UnsubscribeFrom | src/mupnp/controlpoint_event.c:302-330 | SID, timeout and timestamp are cleared, the event key stays; without a root device nothing changes |
| EventKey.ClientService.UpdateStateTable | src/mupnp/controlpoint_http_server.c:125-145 | the first variable with the name gets the value |
| EventKey.ClientService.ReceiveNotify | src/mupnp/controlpoint_http_server.c:61-96 | a notification in sequence sets key and table, any other one makes the control point subscribe again; listeners are told exactly of accepted ones |
| EventKey.SubscribeOutcome | src/mupnp/controlpoint_event.c:201-330 | what a subscribe request, granted or not, and an unsubscription leave in SID, timeout, timestamp and event key |
| EventKey.NotifyOutcome | src/mupnp/controlpoint_http_server.c:61-96 | one for another SID changes nothing; one in sequence sets the key, 0 at the largest number; any other one ends with key 0 and SID, timeout and timestamp of the grant, or all cleared |
| EventDelivery.GetServiceBySid | src/mupnp/device.c:2031-2059 | the recursive search over a device and its embedded devices returns the first service in document order that is subscribed under the SID |
| EventDelivery.DeliverNotify | src/mupnp/controlpoint_http_server.c:49-96 | over the cached devices the first service subscribed under the SID receives the notification, every other service stays as it is, and listeners are told only of accepted ones |
| EventDelivery.ServicesAreIndependent | src/mupnp/controlpoint_http_server.c:49-96 | if the SIDs in the cache are distinct and devices grant fresh ones, every service goes through exactly the run of its own notifications, whatever else the control point receives |
| EventDelivery.FreshGrantsKeepDistinct | src/mupnp/controlpoint_http_server.c:66-82 | distinct SIDs stay distinct through any run in which the granted ones are new and pairwise different |
| EventKey.InSequenceIff | src/mupnp/controlpoint_http_server.c:66-82 | a publisher numbering 0, 1, ..., wrap, 1, ... stays in sequence for ever if and only if it wraps at MUPNP_EVENT_MAX_SEQ, and otherwise exactly up to the smaller of the two |
| EventKey.NeverResubscribesIff | src/mupnp/controlpoint_http_server.c:66-91 | the same for runs of the notification handler: all messages are accepted and the SID never changes |
| EventKey.AcceptedAfterRejection | src/mupnp/controlpoint_http_server.c:66-91 | from any rejection that was granted a SID on, a publisher that starts again at 0 under that SID is accepted throughout under the same condition |
| EventKey.OwnPublisherIsInSequenceIff | src/mupnp/event/subscriber.c:109-120 | this library's own publisher is in sequence up to message 2^31 - 1 and no further |
| EventKey.LossDetectedIff | src/mupnp/controlpoint_http_server.c:66-73 | after message 0, a loss is noticed at the next message unless it is whole cycles |
| EventKey.FirstLossUnnoticed | src/mupnp/controlpoint_event.c:272-273 | after subscribing, messages 0 and 1 are accepted and no other number |
| EventKey.TableIsFoldOfAccepted | src/mupnp/controlpoint_http_server.c:84-91 | the state table is the fold of the properties of accepted notifications |
| EventKey.VariableHasLastAcceptedValue | src/mupnp/controlpoint_http_server.c:125-145 | a variable has the last value that an accepted notification gave it, and its first value if none did |
| Subscribers.GrantedTimeout | src/mupnp/device_http_server.c:535-541 | the timeout is between 1 and 300 and never infinite, whatever the header says |
| Subscribers.NumberIsRead | src/mupnp/event/subscription.c:54-69 | blanks, an optional sign and decimal digits are read as the number they write, whatever follows them |
| Subscribers.TimeoutOfNumber | src/mupnp/event/subscription.c:54-70 | the number after the first minus of the header is granted without its sign if that is from 1 to 300; anything else, and a header without a minus, gives 300 |
| Subscribers.TimeoutAskedFor | src/mupnp/device_http_server.c:535-541 | for "Second-n" in decimal, n seconds are granted up to 300; 0, "Second-infinite" and no header give 300 |
| Subscribers.DeliveryUrlOfBracketed | src/mupnp/device_http_server.c:531-533 | a URL sent in angle brackets is the delivery URL, whole |
| Subscribers.DeliveryUrlIsTrimmed | src/mupnp/device_http_server.c:531-533 | for every callback, the delivery URL is what is left between all leading "<" and all trailing ">" |
| Subscribers.GrantedSidComesBack | src/mupnp/service.c:1071-1095 | a granted SID, "uuid:" and an id, is compared by its id, and so is what the SID header of a later request brings back |
| Subscribers.EventedService.GetSubscriberBySid | src/mupnp/service.c:1071-1095 | the first subscriber with the SID, or none if none has it |
| Subscribers.EventedService.RemoveSubscriber | src/mupnp/service.c:1055-1065 | takes out that subscriber and no other |
| Subscribers.EventedService.NewSubscription | src/mupnp/device_http_server.c:519-563 | appends the new subscriber with the trimmed callback and the clamped timeout |
| Subscribers.EventedService.ExistingSubscription | src/mupnp/device_http_server.c:565-630 | renews in place or removes the subscription with the SID, or refuses an unknown one |
| Subscribers.EventedService.HandleRequest | src/mupnp/device_http_server.c:458-517 | the dispatch computes Handle: which requests are refused, with which status, before the list is touched |
| Subscribers.GrantedIff | src/mupnp/device_http_server.c:465-516 | exactly which requests succeed, which get 400 and which 412; refused ones change nothing |
| Subscribers.NewOutcome | src/mupnp/device_http_server.c:519-563 | a new subscription is one entry more at the end, dated now, with no message sent yet; the answer has its SID and timeout |
| Subscribers.ExistingOutcome | src/mupnp/device_http_server.c:565-630 | a renewal dates the first entry with the SID anew, with the timeout asked for now, and keeps its count; an unsubscription takes that entry out and no other |
| Subscribers.EventedService.RemoveExpired | src/mupnp/service_notify.c:36-59 | the first snapshot loop removes exactly the entries that have expired when it reaches them |
| Subscribers.EventedService.NotifySubscribers | src/mupnp/service_notify.c:61-93 | the second one sends each remaining entry one message with its count, and removes exactly those not reached |
| Subscribers.EventedService.NotifyMain | src/mupnp/service_notify.c:26-100 | the pass as a whole |
| SubscriberRuns.ListIsLiveGrants | src/mupnp/device_http_server.c:519-630 | over any run with fresh SIDs the list is exactly the grants not since unsubscribed, swept or failed, in grant order |
| SubscriberRuns.TimeoutsStayBounded | src/mupnp/device_http_server.c:535-541 | every timeout in the list stays between 1 and 300 |
| SubscriberRuns.PassDeliversOnce | src/mupnp/service_notify.c:61-93 | a pass sends one message, with its count, to each entry that never expires or is tested no later than its timeout after its grant or last renewal, and none to any other |
| SubscriberTimes.PassOnEntry | src/mupnp/service_notify.c:36-93 | one pass as one entry sees it: it gets a message exactly if its time is not up at its test, and stays, counted, exactly if that message reached it |
| SubscriberTimes.LastsExactly | src/mupnp/service_notify.c:26-100 | over runs: through requests about others and passes, a subscription is listed at the end if and only if every pass tested it within its timeout from grant or last renewal, and reached it |
| SubscriberTimes.MessagesAreNumbered | src/mupnp/event/subscriber.c:109-120 | over runs: the messages of one subscription are numbered from its count on without gap or repeat, through renewals, until it ends |
| SearchFilter.SimpleStringHash | src/mupnp/device_ssdp_server.c:243-265 | for every byte string the index is in range and is the sum, wrapped to 32 bits, modulo the table size |
| SearchFilter.SlotAddsUp | src/mupnp/device_ssdp_server.c:190-265 | the slot of a search is the sum of the bytes of address, port in decimal and ST, in 32 bits, modulo 101 |
| SearchFilter.DigitsReadBack | src/mupnp/device_ssdp_server.c:195-211 | the port is written in decimal digits that read back as the port |
| SearchFilter.FilterTable.FilterDuplicate | src/mupnp/device_ssdp_server.c:175-241 | a search is suppressed exactly when the latest earlier packet of its slot left a nonzero time less than 15 seconds old |
| SearchFilter.LatestDecides | src/mupnp/device_ssdp_server.c:222-238 | a search is suppressed if and only if the latest earlier packet of its slot is dated, and less than 15 seconds old |
| SearchFilter.PassesIffBucketQuiet | src/mupnp/device_ssdp_server.c:222-238 | with a running clock a search passes exactly when its slot was quiet for 15 seconds |
| SearchFilter.RepeatIsSuppressed | src/mupnp/device_ssdp_server.c:229-233 | every repeat of the same address, port and ST within 15 seconds is suppressed |
| SearchFilter.ReorderedTargetsCollide | src/mupnp/device_ssdp_server.c:195-211 | searches that only reorder their bytes share a slot |
| SearchFilter.SlotsCanDiffer | src/mupnp/device_ssdp_server.c:195-211 | each of ST, port and address alone can make a difference to the slot |
| SearchFilter.FirstSearchCanBeSuppressed | src/mupnp/device_ssdp_server.c:195-238 | two different searches of which the first suppresses the other's first occurrence |

## Left out

- Sockets, HTTP, SSDP parsing, XML parsing and SCPD download: their results are arbitrary arguments of the steps.
- ControlPoint.ControlPoint.Remove: the window in which the lock is released for the device listener between lookup and deletion; it is one step, as it is with no listener. Freeing the memory of what was unlinked is not modelled, only which object it is.
- ControlPoint.ControlPoint.FinishStop: the windows in which the lock is released for the device listener before the list is cleared; it is one step, as it is with no listener.
- Listener calls, condition signals and waits between announcements; what the listener would be told is part of a commit's outcome.
- When the expiration thread runs: what it does to an expired device is a byebye for it (src/mupnp/controlpoint_event.c:142), which the theorems cover.
- `ipchanged`, `subscribeall` and `getdevicebydescriptionuri`: other ways to change the cache that no theorem here covers.
- Two stops, or a start and a stop, at the same time.
- Allocation failure, ESP, Windows and optimized-control-point variants.
- Fixed-size buffers, so UDNs and headers are never truncated; UDN extraction from a USN; URL resolution.
- Wrap-around of the discovery epoch.
- DeviceRemoval.PruneInPlace: lists have a head and forward links; the header node and the back links of `mUpnpList` are not modelled, so taking a device out starts from the head of its list.
- DeviceObjects.CopySubscriptions: the services of a device are a sequence of objects, not an intrusive list as its embedded devices are.
- DeviceTree.ServiceBySidIsFirst: the subscribers that the search also looks for, as for EventDelivery.GetServiceBySid.
- DiscoveryStopping.StoppedHasFreedEverything: embedded devices freed by a byebye of their own UDN are not counted separately from the tree they were in.
- DiscoveryFamilies.NoAba: a sufficient condition on the descriptions alone, which nothing in the protocol enforces; DiscoveryOverlap.AnotherRootCanBeFound shows that the result can fail without it, and DiscoveryInterval.UndisturbedIff gives the exact condition on the steps in between.
- The rules for a candidate without a root UDN: the description parser is taken to supply one.
- EventKey.ClientService.ReceiveNotify: numbers as on platforms with 64-bit `size_t`; state variables that would themselves send events have no subscribers at a control point.
- EventDelivery.GetServiceBySid: the subscribers that the search also looks for; services of a control point's cached devices have none.
- Subscribers.EventedService.GetSubscriberBySid: a SID header of exactly the four characters "uuid", for which the code reads behind the string.
- Subscribers.GrantedTimeout: TIMEOUT headers with more digits than a `long` holds, where `atol` is undefined.
- SearchFilter.FilterTable.FilterDuplicate: the checks of a search before the filter (request line, HOST, MAN, MX, ST present) and the random wait after it.
- Enumeration.AnnounceFrom: repeated announcements, interfaces, waits, headers other than NT, ST and USN, and hosted devices or services without a UDN or type.
- Device-type and service-type splitting, icons, actions, query control, allowed values, embedded SCPD text: no result here depends on them.
