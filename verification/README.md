# DTMD, modelled and proved in Dafny

DTMD is a mount daemon. It keeps a tree of removable devices, reconciles it with the system mount table and
announces every change to its clients; clients list the tree once and follow the announcements. This project
models the daemon's device list, the clients' replica, the client library's protocol, the mount option parser and
printer, the label codec, the event broadcast and the event loop, on the Linux branch, and proves what they promise.

## How the modules fit together

- `Basics`, `Forests`: byte order of strings, and ordered forests in first-child / next-sibling form with the
  operations the daemon and its clients perform on them.
- `Labels`, `LabelForm`, `LabelEscapes`: the volume label decoder, the comparison that never builds the decoded text,
  exactly which labels decode to texts that decoding leaves alone, and both against printers that do not use them.
- `Media`, `Daemon`, `Mounts`: devices, the lines that describe them, and the daemon's operations on forests with
  the announcements they make, including the three passes of the mount check.
- `Shapes`, `Links`, `DeviceTree`, `MountCheck`, `TreeListing`: the same operations in place, on heap nodes with parent,
  child, next and previous links; every method is proved against the forest operation it implements.
- `Replica`, `Simulation`, `CatchUp`, `Listing`, `Convergence`, `Snapshots`, `MountHistory`, `DaemonRun`: the client's
  replica as a forest and the theorems about whole runs: simulation, catch-up after a snapshot, listing round trips,
  alternation. `Delivery`: which lines the client library passes on. `Divergence`, `Following`: where client and daemon
  part, and exactly when, for single events and for runs. `DeviceEvents`: what each event stores and announces, in terms
  of the report alone, up to what the client shows.
- `MediaSets`, `Control`, `ClientRun`: the client's devices on the heap, in sets ordered by path, refining the forest.
- `Replies`, `Answers`, `Calls`, `Library`: the reply automaton of the client library, the daemon's answers it reads, and
  its listing calls.
- `HandOver`: the two-thread hand-over of socket and buffer. `Framing`: cutting a stream into lines.
  `Clients`, `EventLoop`: the linked client list and the poll array. `Broadcast`, `MonitorQueue`: event fan-out with reference counts.
- `OptionTables`, `MountOptions`, `OptionText`, `OptionList`: mount options from text to kernel flags and back.
  `MountWords`, `BuiltInOptions`, `OptionValues`: what they mean, read off the text: kernel flags, built-in options and
  the values of parameters.

The main result for the device tree is `DaemonRun.Run`: for every run of events, the linked list in the heap and the
lines it sends are those of the run on forests up to the first event that stops the daemon, every node ever made is
either still in the list or was freed exactly once, and for a fair run the replica a client folds from these lines
agrees with the list. `ClientRun.Session` is the same for a client that starts with a listing: the tree of nodes it
builds, after replaying the notifications it saved, agrees with the daemon's tree exactly under the condition given
there.

"Fair" (`Simulation.FairRun`) is what clients rely on in the events that have an effect: new devices have new, non-empty
paths other than the root path, a device keeps its type and subtype, stateful devices report a known state, and a device
that is mounted somewhere new has non-empty mount options. The daemon does not enforce it. Its own start can break it:
watching for devices begins (daemon/daemon-main.c:617) before the present ones are enumerated
(daemon/daemon-main.c:639-675), so a device that is plugged in between is both enumerated and announced.
`Divergence.StepAgreesIff` says for each single event, fair or not, exactly when client and daemon agree right after it,
and `Following.FollowsIff` exactly which runs a client follows at every point; the root path does no harm there.

A client gets its lines through the library, whose worker stops at the first ill-formed notification
(library/dtmd-library.c:559-566, 759-766, 1374-1389): the handle has ended then, and nothing behind that line arrives.
`Delivery.Delivered` is what arrives. All statements about lines are about these, and for fair runs they are all lines.

Where the code does not do what its documentation or its callers expect, the model follows the code:

- A device whose path is present already is added once more: `Divergence.AddAgreesIff` says exactly when client and
  daemon agree after an addition, `Divergence.DuplicateExample` shows a device that only the daemon still has.
- The header (`dtmd.h.in`, the notification list) says a change may alter the type. The daemon announces the new type
  and stores the old one. `Divergence.TypeChangeAgreesIff` gives the exact condition for agreement afterwards.
- A changed set of mount options at the same mount point is stored without telling anybody:
  `Divergence.OptionsAgreeIff`.
- A stateful device of unknown state is announced by a line that ends the handles of all clients: `Delivery.WireAccepted`.
- A listing omits the mount point of stateless devices although their mounting is announced:
  `Snapshots.SnapshotAgreesIff` for the listing alone, `Snapshots.SnapshotConverges` for the listing with its replay.
- A listing call whose reply line fails validation returns the result of the call before it, which can be a success
  without any device: `Calls.GarbledExample`, with the exact condition in `Calls.SuccessMeans`.
- Listing the root path through the single-device command breaks the handle while there is no device, although it is
  documented to be similar to listing everything: `Calls.ListingCall`.
- A wait for the hand-over that is given up leaves a permission too many. `HandOver.TimeoutExample` shows both
  threads in the buffer, `HandOver.ExclusiveIffNoneAbandoned` says exactly when that can happen.
- The comparison of labels refuses numeric escapes above 127, because a plain character is compared with an integer:
  `Labels.MatchesIffDecodes`, `LabelEscapes.SameLabelIff`.
- A numeric escape above 0377 is stored as its low byte, so a decoded label need not decode to itself, or at all.
  `LabelForm.NormalIffSettles` and `LabelForm.DecodeIdempotentIff` say exactly for which labels it does,
  `LabelForm.WideEscapeExamples` shows one of either kind. The escape for 256 stores a NUL, which ends the label:
  `LabelForm.VisibleDecodes`.
- A mount with empty options is announced by a line that clients ignore: `Divergence.CheckLinesAgreeIff`.

## Model

| member | source | states |
|---|---|---|
| Basics.LessTotal | daemon/lists.c:261-270 | the string order that sorts siblings is total |
| Basics.LessMeans | daemon/lists.c:261-270 | a string comes before another exactly if it ends first or has the smaller byte where they first differ |
| Forests.InsertSortedSorted | daemon/lists.c:246-270 | putting a path before the first greater sibling keeps siblings sorted |
| Forests.InsertedLast | daemon/lists.c:246-270 | siblings with equal paths stay in the order of their insertion |
| Forests.InsertUnderKeeps | daemon/lists.c:136-148 | insertion under a parent adds exactly the new path below that parent and leaves every other path, its data and its parent as they were |
| Forests.RemoveKeeps | daemon/lists.c:38-79 | removal leaves the data and the parent of every remaining path alone |
| Forests.RemoveSpares | daemon/lists.c:66-79 | removal takes no path of an ancestor-closed group that does not hold the removed one |
| Forests.FindUpdate | library/dtmd-misc.c:220-240 | rewriting one device changes what is found under its path and under no other |
| Labels.MatchesIffDecodes | daemon/label.c:44-309 | the comparison succeeds if and only if decoding succeeds with that text and no numeric escape is above 127 |
| LabelForm.NormalIffSettles | daemon/label.c:318-520 | a decoded label is a sequence of allowed characters, three-digit octal escapes of the others, and unchanged unknown escapes exactly if each number whose low byte does not stand for itself spells a backslash that the items behind it complete |
| LabelForm.ByteLabelsSettle | daemon/label.c:318-520 | so it is for every label that decodes and whose numbers fit a byte |
| LabelForm.NormalDecodesToItself | daemon/label.c:318-520 | decoding leaves such a text as it is |
| LabelForm.NormalIffFixed | daemon/label.c:318-520 | among all C strings, the texts that decoding leaves alone are exactly these |
| LabelForm.NeverCatchesUp | daemon/label.c:462-478 | once a number was stored as a lone backslash, the rest of the output can never again be what is left of the input |
| LabelForm.DecodeIdempotentIff | daemon/label.c:318-520 | for every label that decodes, decoding the decoded label again changes nothing exactly if its part before the first number 256 settles |
| LabelForm.VisibleDecodes | daemon/label.c:462-478 | the C string in the decoded buffer is what the part of the label before the first number 256 decodes to |
| LabelForm.WideEscapeExamples | daemon/label.c:462-478 | two labels with the same wide escape, one that decodes to a fixed text and one that decodes to what cannot be decoded |
| LabelEscapes.HexDecodes | daemon/label.c:412-450 | a backslash, an x and two hexadecimal digits in either case decode to the byte they spell, as itself or as a three-digit octal escape |
| LabelEscapes.OctalDecodes | daemon/label.c:452-489 | three octal digits decode to the byte they spell, and from 256 on to its low byte |
| LabelEscapes.NamedDecodes | daemon/label.c:340-411 | each escape that names a character decodes to the octal escape of its code |
| LabelEscapes.OtherDecodes | daemon/label.c:491-497 | any other character after a backslash is kept with it, but an x or an octal digit without more digits cannot be decoded |
| LabelEscapes.DecodeJoin | daemon/label.c:330-515 | labels are decoded piece by piece |
| LabelEscapes.LabelDecodes | daemon/label.c:318-520 | however the bytes of a label are written, each as itself, in hexadecimal or in octal, the decoded text is the spelling of these bytes |
| LabelEscapes.SpellingTells | daemon/label.c:318-520 | different bytes have different spellings, so decoding loses nothing |
| LabelEscapes.SameLabelIff | daemon/label.c:44-309 | the comparison of a stored label with a reported one holds exactly if their bytes are the same and none above 127 is reported as a number |
| Labels.DecodeFits | daemon/label.c:318-325 | a decoded label fits the buffer of four bytes per input byte and one more |
| Labels.DecodeLabel | daemon/label.c:311-521 | the cursor loop computes the decoder on terminated text without leaving either buffer, and leaves the decoded C string there |
| Labels.CompareLabels | daemon/label.c:44-309 | the two-cursor loop computes the comparison without reading past a terminator |
| Media.NamesRoundTrip | library/dtmd-misc.c:25-143 | type, subtype and state names are read back as what they were written for, and are never empty |
| Media.DescriptionRoundTrip | daemon/actions.c:321-388 | a client accepts a description exactly when the device has known type, subtype and state as its type needs, and then reads precisely the transmitted fields |
| Media.ReceivedDescription | library/dtmd-library++.cpp:138-180 | through the C++ binding, where missing arguments become empty strings and back, the same fields arrive |
| Mounts.CheckMountsMeaning | daemon/mnt_funcs.c:153-236 | after a check each device is mounted where the first table entry naming it says, or nowhere, and what is announced about it is exactly the difference, unmount first |
| Mounts.CheckMountsTwice | daemon/mnt_funcs.c:153-236 | a second check of the same table changes and announces nothing |
| Mounts.SettleAllKeeps | daemon/mnt_funcs.c:117-150 | a check keeps paths, their uniqueness and order, and leaves counters 1 for mounted and 0 for other devices |
| Mounts.CheckCounters | daemon/mnt_funcs.c:117-226 | also with paths that occur several times, a check leaves counters 1 for mounted and 0 for other devices |
| Links.FindNodeMeaning | library/dtmd-misc.c:220-240 | the node found has the path, and is missing exactly when no device has it |
| Links.LeafLinked | daemon/lists.c:246-298 | the writes of an insertion keep parents right, next and previous links inverse and the head without a previous node |
| Links.CutLinked | daemon/lists.c:45-64 | the writes of an unlinking do the same for what is left |
| Links.UnlinkedSkips | daemon/lists.c:45-64 | writing at most three fields of the neighbours is enough for every link to skip the node |
| Links.NodesLinked | daemon/lists.c:38-79 | only the parent and the two neighbours of a node lead to it |
| Links.PostorderOnce | daemon/lists.c:66-113 | freeing children before parents meets every node of a subtree exactly once |
| DeviceTree.FindMedia | library/dtmd-misc.c:220-240 | the search over the linked list finds the first node with the path in preorder |
| DeviceTree.DeviceTree.FindPlace | daemon/lists.c:259-270 | the walk stops between the last sibling that is not greater and the first that is |
| DeviceTree.DeviceTree.LinkLeaf | daemon/lists.c:246-298 | the pointer surgery leaves a well-formed list that spells the old forest with one leaf inserted in order |
| DeviceTree.DeviceTree.AddMedia | daemon/lists.c:116-311 | adding refines insertion into the forest: same devices, same lines, same outcome for unknown parents and undecodable labels, and the node count adds up |
| DeviceTree.DeviceTree.Unlink | daemon/lists.c:45-64 | taking a node out writes exactly the three fields that lead to it |
| DeviceTree.DeviceTree.RemoveHelper | daemon/lists.c:38-114 | the recursive removal announces its subtree in post-order, an unmount before each removal, and frees exactly its nodes in that order |
| DeviceTree.DeviceTree.RemoveSiblings | daemon/lists.c:66-74 | the loop that remembers the next child before freeing one announces and frees the whole list |
| DeviceTree.DeviceTree.RemoveMedia | daemon/lists.c:356-375 | removal refines removal from the forest, keeps a well-formed list and a right root, and frees what it takes out |
| DeviceTree.DeviceTree.RemoveAllMedia | daemon/lists.c:558-573 | removing everything announces the whole forest and leaves nothing behind |
| DeviceTree.DeviceTree.StoreVolume | daemon/lists.c:472-489 | a label that means the same is kept, another is decoded, and one that cannot be decoded leaves none |
| DeviceTree.DeviceTree.StoreMount | daemon/lists.c:491-525 | the mount point is replaced with the right counter and announced as unmount, then mount |
| DeviceTree.DeviceTree.Examine | daemon/lists.c:395-459 | a change is refused in exactly the cases of the specification: unknown device, moved device, other sysfs path, nothing new |
| DeviceTree.DeviceTree.ChangeMedia | daemon/lists.c:377-556 | changing refines the update of the forest, with the same lines and outcome, also when it stops half-way |
| DeviceEvents.AddOutcome | daemon/lists.c:141-200 | a device is added exactly if its parent is known and its label can be read; an unreadable label stops the daemon; otherwise nothing happens |
| DeviceEvents.AddStores | daemon/lists.c:150-308 | a new device is stored below its parent with every field as it was reported and its label decoded, and announced once with these fields; all other devices stay as they were |
| DeviceEvents.ChangeOutcome | daemon/lists.c:395-489 | a change is made exactly if the device is known and where it was, some field differs, and the label is the stored one or can be read; else it is refused, a bug, or stops the daemon |
| DeviceEvents.ChangeStores | daemon/lists.c:450-540 | whatever does not stop the daemon leaves the reported state, file system, label and mount in the device, its type, subtype and place as they were, and all other devices alone |
| DeviceEvents.ChangeTells | daemon/lists.c:491-553 | a change is announced by an unmount and a mount where the mount point differs, and then one line with the reported type and the stored fields |
| DeviceEvents.ChangeStopsHalfway | daemon/lists.c:450-489 | a label that cannot be read stops the daemon with state and file system stored and no label |
| DeviceEvents.EffectIff | daemon/daemon-main.c:791-896 | which events have an effect, in terms of the tree and the report alone |
| DeviceEvents.EndsIff | daemon/daemon-main.c:791-896 | a run ends exactly with a device that is announced at another place than it has, or a label that cannot be read |
| DeviceEvents.AddReaches | daemon/lists.c:116-311 | after an addition the client shows the new device below its parent as it was reported, and all others as before |
| DeviceEvents.ChangeReaches | daemon/lists.c:377-556 | after a change the client shows the device as it was reported, not mounted and where it was, and all others as before |
| DeviceEvents.CheckReaches | daemon/mnt_funcs.c:153-236 | after a mount check the client shows each device mounted where the first table entry naming it says, if that entry is complete, and otherwise not mounted |
| DeviceEvents.DropReaches | daemon/lists.c:356-375 | after a removal the client no longer shows the device, every device it still shows has its parent there, and all of these are as before |
| MountCheck.MarkDevices | daemon/mnt_funcs.c:103-115 | the first pass shifts the counter of every device once |
| MountCheck.ReadTable | daemon/mnt_funcs.c:172-226 | the pass over the table refines the scan on forests, including devices named twice |
| MountCheck.SweepDevices | daemon/mnt_funcs.c:117-150 | the last pass clears and announces exactly the devices that are gone, in preorder |
| MountCheck.ScanBacked | daemon/mnt_funcs.c:123-127 | an unmount announced by the last pass always has a mount point to name, whatever the table says |
| MountCheck.CheckMountChanges | daemon/mnt_funcs.c:153-243 | the whole check on the linked list refines the check on forests; an unreadable table changes nothing |
| MediaSets.FindRemovableMedia | library/dtmd-library++.cpp:558-590 | the search over sets of nodes finds the first node with the path in preorder |
| MediaSets.SetInsert | library/dtmd-library++.hpp:38-55 | in a set ordered by path a node goes to its place exactly if no element has its path |
| MediaSets.SetErase | library/dtmd-library++.hpp:38-55 | looking an element up by its path erases exactly that element |
| MediaSets.UnderLinked | client/qt/control.cpp:530-541 | writing the children of one node is enough for every pointer to include the new node |
| MediaSets.CutLinked | client/qt/control.cpp:574-592 | erasing a node from the set of its parent is enough for every pointer to skip it |
| MediaSets.CollectedAscending | library/dtmd-library++.cpp:138-185 | siblings that ascend by path are inserted one by one into the very same order |
| Control.Create | library/dtmd-library++.cpp:138-185 | building nodes from a listing gives a well-formed tree with the collected contents, also for unsorted or repeated siblings |
| Control.Control.InsertBelow | client/qt/control.cpp:532-541 | the new node joins the children of the node its parent path found: a well-formed tree with one leaf more |
| Control.Control.Erase | client/qt/control.cpp:566-592 | the node is erased from its parent's set, or from the outermost one, with everything below it, and something is always erased |
| Control.Control.ProcessCommand | client/qt/control.cpp:509-683 | every command keeps the heap tree well-formed and has on it the effect it has on the forest, updates in place included |
| Control.Control.Callback | client/qt/control.cpp:427-446 | before the first listing commands are saved in order, afterwards they are processed at once |
| Control.Control.PopulateDevices | client/qt/control.cpp:242-270 | a listing replaces the nodes, and the saved commands are replayed over it and forgotten |
| Replica.ProcessReceived | client/qt/control.cpp:515-680 | sending a readable announcement and processing its line has exactly the effect that was meant |
| Delivery.WireAccepted | library/dtmd-library.c:1374-1389 | each announcement is one line that the library's automaton accepts and stays where it is, or refuses, exactly if it describes a device that is not transmissible; devices of unknown type are not announced |
| Delivery.SurvivesIff | library/dtmd-library.c:539-571 | the handle survives a log exactly if all of its announcements are accepted, and then all of its lines are passed on |
| Delivery.ProcessDelivered | client/qt/control.cpp:509-683 | processing what is passed on of any log has exactly the effect of the readable announcements before the first that ends the handle |
| Simulation.ToldAgreesIff | client/qt/control.cpp:600-627 | after a change is announced, replica and daemon agree exactly if what was told is what was stored |
| Simulation.FarewellPrunes | client/qt/control.cpp:562-599 | the announcements of a removed subtree take exactly its paths out of the replica |
| Simulation.StepSound | daemon/daemon-main.c:791-896 | every fair event keeps paths unique, siblings sorted, counters right and devices describable |
| Simulation.StepCounters | daemon/daemon-main.c:791-896 | every event, fair or not, leaves the counters right |
| Simulation.StepSorted | daemon/daemon-main.c:791-896 | and siblings sorted |
| Simulation.ReplicaFollowsDaemon | client/qt/control.cpp:509-683 | from the empty tree, folding the announcements of any fair run gives the daemon's tree |
| CatchUp.ParentStays | client/qt/control.cpp:515-561 | a device that is never removed later keeps its parent |
| CatchUp.StaysToTheEnd | client/qt/control.cpp:515-680 | a device that is never removed later is there at the end |
| CatchUp.Converge | client/qt/control.cpp:253-259 | replaying a log from an early replica and over the final one meets in the same replica |
| CatchUp.StayersRemain | client/qt/control.cpp:515-680 | while a replica catches up it never loses a device that the log keeps |
| CatchUp.ReplayIsHarmless | client/qt/control.cpp:242-270 | replaying any suffix of a legal log over the replica that reflects all of it changes nothing |
| Listing.PrintComplete | daemon/actions.c:382-386 | a listing is printed to the end exactly when every type is known, and then has one line per device |
| Listing.BuildGrafts | library/dtmd-library.c:2051-2118 | inserting the items of a preorder one by one appends that very forest to the children of its parent |
| Listing.RebuildIsBuild | library/dtmd-library.c:2051-2064 | items that come after their parents always find them |
| Listing.ListAllRoundTrip | library/dtmd-library.c:2044-2118 | the printed tree is rebuilt exactly, in its transmitted fields |
| Listing.ListOneRoundTrip | library/dtmd-library.c:2191-2265 | the printed subtree of one device is rebuilt exactly, as a single root |
| Convergence.RunLegal | daemon/lists.c:38-114 | every fair run sends a legal, readable log |
| Convergence.ClientFollowsDaemon | client/qt/control.cpp:427-446 | the library passes on all lines of a fair run, and a client that processes them from the start holds the daemon's tree |
| Snapshots.SnapshotAgreesIff | daemon/actions.c:350-360 | a listing agrees with the tree exactly when no stateless device is mounted |
| Snapshots.GapStep | client/qt/control.cpp:515-680 | a notification closes the difference at the device that leaves or that it writes, and opens none |
| Snapshots.SnapshotConverges | client/qt/control.cpp:242-270 | a listing taken at any point, with any suffix of earlier announcements and all later ones replayed over it, ends in the daemon's tree exactly if each stateless device that was mounted at the listing is removed, changed, mounted or unmounted in what is replayed |
| Snapshots.ListThenReplay | client/qt/control.cpp:242-270 | the same on the lines themselves: print, rebuild, replay |
| ClientRun.Session | client/qt/control.cpp:242-270 | the same on the heap: the nodes of a client that saves, lists, adopts the listing later, replays and follows agree in the end under exactly this condition, whichever lines arrive before the adoption |
| ClientRun.Receive | client/qt/control.cpp:427-446 | any number of lines is saved before the first listing and folded into the tree of nodes after it |
| Divergence.AddAgreesIff | daemon/lists.c:141-148 | after the line of an addition, replica and tree agree exactly if the path was new, both paths are non-empty and a stateful device reported its state |
| Divergence.DuplicateExample | daemon/daemon-main.c:617-675 | a device added twice and removed once stays with the daemon and is gone for the client |
| Divergence.TypeChangeAgreesIff | daemon/lists.c:461-553 | after the lines of a change, replica and tree agree exactly if the announced type is the stored one or, where clients refuse the line for its unknown state, nothing they could see has changed |
| Divergence.CheckLinesAgreeIff | daemon/mnt_funcs.c:153-236 | after the lines of a mount check, replica and tree agree exactly if no device is mounted somewhere new with empty options |
| Divergence.StepAgreesIff | daemon/daemon-main.c:791-896 | for any event, fair or not, that does not stop a daemon with a sound tree: after its lines replica and tree agree exactly if the event is faithful, which combines the conditions for additions, changes and checks; removals always are |
| Divergence.OptionsAgreeIff | daemon/mnt_funcs.c:206-219 | after the lines of a mount check of any table, replica and tree agree with mount options included exactly if each device's new options and new mount point are told |
| Following.StepFollowsIff | daemon/daemon-main.c:791-896 | after any event that does not stop the daemon, the handle is alive and the replica agrees exactly if the event tells everything |
| Following.FollowsIff | daemon/daemon-main.c:711-989 | in every run that does not stop the daemon, a client is alive and agrees at every point exactly if each event tells everything |
| MountHistory.StepLived | daemon/mnt_funcs.c:117-236 | in a tree with unique paths every event, unless it adds a path again, takes each device through a legal step of its life: added, mounted, unmounted, removed |
| MountHistory.StepUnique | daemon/lists.c:116-311 | only adding a path again can make paths ambiguous |
| MountHistory.MountsAlternate | daemon/mnt_funcs.c:117-236 | in every run whose added devices are new, whatever else the events report, the mount and unmount announcements of each device strictly alternate, and between events counters are 1 for mounted and 0 for other devices |
| DaemonRun.Handle | daemon/daemon-main.c:791-896 | one event of the main loop on the heap refines its effect on forests |
| DaemonRun.Run | daemon/daemon-main.c:711-989 | for every run, fair or not, until it stops: the list and the lines are those of the run on forests, the list is well-formed with sorted siblings, no node is lost or freed twice, and counters are right; after a fair run a following client agrees |
| TreeListing.PrintSiblings | daemon/actions.c:390-439 | the recursive printer sends the preorder of the list up to the first device it cannot describe |
| TreeListing.AnswerList | daemon/actions.c:61-147 | both listing commands answer with the lines of the specification, or the refusal for an unknown path |
| TreeListing.PlaceItem | library/dtmd-library.c:2051-2118 | placing an item in the library's linked result refines placing it in a forest, and fails exactly for an unknown parent |
| Replies.KindsApart | library/dtmd-library.c:1261-1389 | no message belongs to two kinds of answer |
| Replies.TakeApart | library/dtmd-library.c:1261-1372 | any accepted sequence is the beginning of whole answers; from inside a block its remaining items and its end come first |
| Replies.AcceptsIffBegins | library/dtmd-library.c:1261-1389 | from the default state the automaton accepts exactly the beginnings of sequences of notifications, refusals, successes and complete listing blocks |
| Answers.AcceptedIff | library/dtmd-library.c:1265-1314 | between blocks the library accepts exactly the successes, refusals and openings of the listed names, each with its number of arguments, of which only the options of a mount may be missing |
| Answers.AnswerAccepted | daemon/actions.c:136-220 | every answer of the daemon to a mount, unmount or power-off command and to a listing of file systems or their options, success or refusal, is accepted and leaves no block open |
| Answers.OneMoreOrLess | library/dtmd-library.c:1457-1595 | with one argument more or less than the daemon sends, the first line of an answer ends the handle |
| Answers.RefusalOneMoreOrLess | library/dtmd-library.c:1457-1595 | so it is for a refusal |
| Answers.BlockIff | library/dtmd-library.c:1318-1369 | a block ends with the line that repeats its query and holds nothing but its own items |
| Answers.PlainNotificationIff | library/dtmd-library.c:1374-1389 | an announcement is accepted exactly with its number of arguments, all present, or with a valid description |
| Answers.DescriptionText | daemon/actions.c:321-388 | how a device of each type is described, argument by argument |
| Answers.AnnouncementLines | daemon/actions.c:222-319 | the line of each announcement, and none for a device of unknown type |
| Calls.OkIffAnswered | library/dtmd-library.c:1910-2022 | with no unreadable line, a listing call succeeds exactly when one contiguous block for its kind and parameter arrived whole, and the result is rebuilt from that block's items alone |
| Calls.SuccessMeans | library/dtmd-library.c:1953-1960 | in general a success is either such an answer or an unreadable line met by a handle whose last result was a success, and never both |
| Calls.GarbledKeepsPrior | library/dtmd-library.c:1955-1958 | after an unreadable line the call returns the result of the call before, with no device |
| Calls.GarbledExample | library/dtmd-library.c:1955-1958 | concretely: a fresh handle that meets an unreadable line reports success with no device |
| Calls.StoppedCall | library/dtmd-library.c:1984-1997 | when the wait for a line ends first, the call returns the reason and no device, and the handle stays usable after a timeout, a failed command, a lost connection or a failed read, and after nothing else |
| Calls.PhaseFollows | library/dtmd-library.c:2122-2155 | a call leaves the handle in the phase of the stream, so an abandoned call loses no synchronisation |
| Calls.AbandonedRest | library/dtmd-library.c:1318-1342 | a call that starts inside an abandoned block first reads that block's remaining items and its end |
| Calls.ListingCall | library/dtmd-library.c:2171-2313 | asking the daemon for all devices or for one returns what their descriptions convey, except for the root path without any device |
| Calls.UnknownPath | daemon/actions.c:97-110 | a path the daemon does not know is reported as a failed command, and the handle stays usable |
| Calls.LateAnswerSkipped | library/dtmd-library.c:2025-2164 | an answer to another query, a block or a refusal that arrives after its call was given up, is passed over as a whole |
| Library.Handle.HandleCmd | library/dtmd-library.c:1261-1389 | reading a message follows the automaton, and hands a notification to the application exactly between listings |
| Library.Handle.ProcessListing | library/dtmd-library.c:2025-2164 | one message of a listing call follows the specification, building the result in the heap |
| Library.Handle.ListDevices | library/dtmd-library.c:1910-2022 | the whole call on the heap refines the call on values, for every sequence of events |
| Library.Handle.Conclude | library/dtmd-library.c:1999-2021 | the result tree survives only a success, and every failure stops the worker |
| HandOver.StepConsistent | library/dtmd-library.c:522-767 | every step of either thread keeps the counts of permissions and of requests |
| HandOver.HandOverExclusive | library/dtmd-library.c:608-626 | without abandoned waits the threads never use buffer and socket together, and grant bytes, ownership and semaphore add up to one exactly while the living worker is parked |
| HandOver.CallCycle | library/dtmd-library.c:1761-1801 | a call that borrows the buffer, uses it and gives it back leaves everything as it was |
| HandOver.ShutdownEnds | library/dtmd-library.c:522-626 | closing a resting handle ends its worker and then the shutdown |
| HandOver.ClosedMeansGone | library/dtmd-library.c:522-626 | however it was used, a handle is closed only when its worker is gone |
| HandOver.FailureIsHeard | library/dtmd-library.c:522-626 | with no wait given up before, a worker that fails while a caller waits is heard: the caller gets its last word instead of a grant |
| HandOver.RefusalIsFinal | library/dtmd-library.c:1924-1940 | a caller that got that word, or whose wait failed, ends its call, and no call ever begins again |
| HandOver.BlockedCallerGoesOn | library/dtmd-library.c:1761-1801 | from every consistent state, a bounded number of steps in which the worker serves its pipe lets a waiting or closing caller go on |
| HandOver.NoEndlessWait | library/dtmd-library.c:526-626 | in whatever way the worker serves or fails, a caller can go on within that bound |
| HandOver.StaleGrant | library/dtmd-library.c:1785-1790 | after an abandoned wait there is a continuation in which the next call takes an old grant while the worker runs |
| HandOver.ExclusiveIffNoneAbandoned | library/dtmd-library.c:1924-2022 | between calls, exclusion is safe for all patient continuations exactly when no wait was abandoned |
| HandOver.TimeoutExample | library/dtmd-library.c:2020-2021 | seven steps that end with both threads in the buffer |
| Framing.LineBuffer.Append | library/dtmd-library.c:1834-1841 | one read extends the contents and keeps a terminator in bounds |
| Framing.LineBuffer.TakeLine | library/dtmd-library.c:1953-1963 | taking a line removes exactly the text up to the first newline and moves the rest with its terminator |
| Framing.LineBuffer.Receive | daemon/daemon-main.c:921-974 | one read of the daemon extracts the complete lines in order, keeps the rest, and overflows exactly when the rest fills the buffer |
| Framing.LineBuffer.Serve | daemon/daemon-main.c:921-974 | a connection read in chunks of any sizes yields the lines of what was read, and is dropped exactly if its stream has a line that is too long |
| Framing.LinesAppend | daemon/daemon-main.c:921-974 | the lines of a stream are those of its beginning and then those of its remainder with what follows |
| Framing.FramingIndependent | daemon/daemon-main.c:921-974 | however a stream is split into reads and whoever takes its lines, the lines are those of the stream, and the buffer is full exactly when one of them is too long |
| Framing.ShortNeverFills | daemon/daemon-main.c:970-974 | a stream of short lines fills the buffer at none of its prefixes |
| Clients.ClientList.Add | daemon/lists.c:575-629 | a new client is linked behind the last one, a known descriptor is refused |
| Clients.CutLinked | daemon/lists.c:650-660 | linking the neighbours of a client to each other is enough for both directions of the list |
| Clients.ClientList.Remove | daemon/lists.c:631-670 | exactly the first client with the descriptor is unlinked, and root and count stay right |
| EventLoop.Loop.FillPoll | daemon/daemon-main.c:713-745 | filling stays in bounds and puts the clients after the three fixed slots |
| EventLoop.Loop.Iterate | daemon/daemon-main.c:711-989 | every iteration keeps slots, count and distinct descriptors in step, never misses a polled client, and leaves the clients that were not dropped and then the new one |
| Broadcast.StepCounted | daemon/modules/unix-userspace/system_module.c:383-432 | every step keeps each counter equal to the number of references |
| Broadcast.CountersExact | daemon/modules/unix-userspace/system_module.c:383-432 | in every interleaving nothing in use is freed, nothing is freed twice, and what nobody uses is freed |
| Broadcast.FreedOnce | daemon/modules/unix-userspace/system_module.c:383-432 | in every interleaving the last reference to each record that nobody uses was given up exactly once, and to no other record |
| Broadcast.NothingLeaks | daemon/modules/unix-userspace/system_module.c:383-432 | from every state that can be reached, releases alone lead to one in which every published record is freed, once |
| Broadcast.EveryEventOnce | daemon/modules/unix-userspace/system_module.c:2944-2968 | in every interleaving each monitor gets what was published since it registered, in order and once, with one data byte for each queued record |
| Broadcast.TakeDelivers | daemon/modules/unix-userspace/system_module.c:3449-3487 | a data byte is there exactly when the queue is not empty |
| Broadcast.RecordsHoldEvents | daemon/modules/unix-userspace/system_module.c:2944-2968 | in every interleaving the records hold the events that were published, in order |
| Broadcast.PublishReaches | daemon/modules/unix-userspace/system_module.c:2944-2968 | a working worker that holds no record can publish: every monitor on the list gets the new record and a byte for it, nobody else does, and afterwards these monitors alone use it |
| Broadcast.LastWordComes | daemon/modules/unix-userspace/system_module.c:2985-3025 | when the worker stops, every monitor on the list hears why, after everything that was published |
| MonitorQueue.Queue.Add | daemon/modules/unix-userspace/system_module.c:2839-2870 | appending behind the last cell appends to the sequence of records |
| MonitorQueue.Queue.Take | daemon/modules/unix-userspace/system_module.c:3449-3473 | taking the first cell takes the oldest record, also when it is the last |
| OptionTables.TablesSound | daemon/filesystem_opts.c:85-304 | in every table of the Linux file systems no name begins another, parameters are marked, and different flags share no bit |
| OptionTables.FindsFirst | daemon/filesystem_opts.c:567-598 | the search over all lists finds the first entry that fits, and nothing exactly when none fits |
| MountOptions.ParseIsPushAll | daemon/filesystem_opts.c:684-823 | parsing succeeds exactly when every option is allowed |
| MountOptions.PushAllKeepsLast | daemon/filesystem_opts.c:753-796 | adding options to a list keeps what they do not override, followed by the last of each key |
| MountOptions.ParseKeepsLast | daemon/filesystem_opts.c:684-823 | parsing into an empty list keeps the last option of every key, in the order of these last occurrences |
| MountOptions.MandatoryWins | daemon/filesystem_mnt.c:567-607 | user options and then mandatory ones give the user's other options followed by the last mandatory one of each key |
| MountOptions.MandatoryFlagsWin | daemon/filesystem_mnt.c:567-607 | whatever the user asks for, each flag that a mandatory option sets has that option's value in the flag word |
| MountOptions.ParsedFlags | daemon/filesystem_opts.c:1112-1122 | whatever is parsed into a list with one option per key, such a list comes out and its flag word is the union of its enabled flags |
| MountOptions.MountFlags | daemon/filesystem_mnt.c:567-607 | so it is for the list that is mounted, the user's options and then the mandatory ones |
| MountWords.NameFound | daemon/filesystem_opts.c:86-110 | each option name sets or clears its own kernel flag and no other name touches it |
| MountWords.WordReads | daemon/filesystem_opts.c:1112-1122 | the flag word of a mount has the bit of each kernel flag exactly if its last mention in the user's options and the mandatory ones sets it, and no other bit |
| BuiltInOptions.BuiltInAllowed | daemon/filesystem_opts.c:229-302 | the default and the mandatory options of every file system are allowed by its own table |
| BuiltInOptions.BuiltInWord | daemon/filesystem_mnt.c:567-607 | whatever the user asks for, the built-in mandatory options leave the bits against devices and set-user-id programs set |
| BuiltInOptions.DefaultWord | daemon/filesystem_opts.c:229-302 | without options of the user, discs are mounted read-only and everything else is writable |
| BuiltInOptions.SharedOptions | daemon/filesystem_opts.c:111-128 | the options that every file system has, and those of all that the kernel mounts itself |
| BuiltInOptions.Forbidden | daemon/filesystem_opts.c:111-227 | the options that admit set-user-id programs and devices are allowed for no file system |
| OptionValues.DecimalReads | daemon/filesystem_opts.c:826-917 | the number printed for a user or group reads as that number, without leading zeros |
| OptionValues.IdentityText | daemon/filesystem_opts.c:1126-1384 | for every built-in file system the options end with the user and then the group of the mount |
| OptionValues.LettersIff | daemon/filesystem_opts.c:1583-1639 | which texts pass as numbers and access modes |
| OptionValues.PlainIff | daemon/filesystem_opts.c:1593-1608 | which texts pass as plain ones |
| OptionValues.ListedIff | daemon/filesystem_opts.c:1571-1695 | which values pass where they are chosen from a list |
| OptionValues.ValueIsPlain | daemon/filesystem_opts.c:567-598 | the value of an allowed option holds no comma, slash or equals sign, and exactly the options with a parameter have one |
| OptionValues.FilesystemKinds | daemon/filesystem_opts.c:111-302 | all options of every file system, in the order in which they are compared, each with what its value may be |
| OptionText.TokensJoin | daemon/filesystem_opts.c:684-700 | cutting a joined list at its commas gives the list back |
| OptionText.PrintParse | daemon/filesystem_opts.c:957-1124 | every list of allowed options with one option per key, printed in full and parsed again, is the same list |
| OptionText.MountPrintParse | daemon/filesystem_mnt.c:567-607 | so is the list that is mounted, the user's options and then the mandatory ones, whatever the texts |
| OptionList.OverridesIsKey | daemon/filesystem_opts.c:753-781 | comparing with the unterminated rest of the text finds exactly the items of the same key |
| OptionList.OptionList.Place | daemon/filesystem_opts.c:783-811 | shifting in place moves an overridden option to the end, and a new one is appended |
| OptionList.OptionList.Convert | daemon/filesystem_opts.c:661-918 | the parser leaves the list of the specification, also the part before a refused option, and sets user and group only after a success |
| OptionList.OptionList.ForMount | daemon/filesystem_mnt.c:546-607 | the options of a mount are the chosen ones and then the mandatory ones, with a flag word in which the last mention of each flag decides and a printed form that parses back to them, or it fails exactly if one is not allowed; built-in defaults never fail, and built-in mandatory options are in force |
| OptionList.OptionList.Put | daemon/filesystem_opts.c:1001-1018 | a bounded copy writes what fits and nothing else |
| OptionList.OptionList.Generate | daemon/filesystem_opts.c:920-1384 | for every list and buffers of any size the lengths are those of the comma joins, the buffers show what fits of them and keep the rest, and the word is that of the options |

## Left out

- ReplicaFollowsDaemon: mount options are not compared over whole runs, because the daemon stores changed options at the same mount point without telling anybody (daemon/mnt_funcs.c:206-219); OptionsAgreeIff compares them over one check.
- NormalIffSettles: the C library leaves the character classes of numbers above 0377 undefined; the model takes them as neither control nor punctuation characters.
- MatchesIffDecodes: characters are compared as the signed characters of the common Linux platforms.
- Run: after an event that does not tell everything, agreement with a client is not followed further (FollowsIff says that it was lost at some point); the links, the accounting, the order, the counters and the lines are.
- CountersExact: the reference counter is unbounded; 2^32 references to one record are not modelled.
- EveryEventOnce: pipes hold any number of bytes, and a reader takes a byte only when there is one.
- Iterate: the buffers of the clients are in `Framing`; the outcome of serving a client is an input; which command it sent does not matter to the loop. Failing calls that end the daemon are left out.
- ListDevices: a call without a timeout and one with a timeout differ only in the events they meet; clocks are inputs.
- FramingIndependent: a command that ends the connection or moves the reader ends the sequence of steps.
- Byte-level command syntax: a line is a command name with optional arguments, and its validity is an input.
- Failing memory allocation and the cleanup after it; a label that cannot be decoded is modelled, since it takes the same path.
- Shared ownership in the C++ client: nodes that are erased or not inserted are simply no longer part of the tree, and a weak parent pointer is a pointer, since the parent of a node in the tree is in the tree. `std::set` is a sequence that insertion and erasure keep in order.
- Sockets, processes, signals, udev, blkid, netlink and sysfs: device events, mount tables and polled states are inputs.
- The mount and unmount commands themselves, power-off, mtab, and mount point names: each is a list of guarded system calls.
- The configuration file: it only chooses the default and the mandatory options, which are inputs of `ForMount`.
- FreeBSD, with its other option format.
- Menus, icons and messages of the graphical client, and the console client.
