# A verified model of yakushima

yakushima is an ordered key-value store: a trie of B+-trees in which every layer indexes one slice of
eight bytes of the key. This project models its tree, its range scan, its version words and its
epoch-based reclamation in Dafny, and proves what they are for.

`dafny verify dfyconfig.toml` checks the whole project.

## What is modelled

**The tree.** Keys are byte strings (`Keys.dfy`), cut into tuples of a zero-padded slice and a length
code, where 9 stands for "more than 8". What a node holds is a sorted sequence of entries, or a row of
separators and children (`Contents.dfy`). Two classes keep these in the form of the source, in arrays of
15 slots that are shifted and overwritten: `BorderNode.dfy`, over the packed 64-bit permutation word of
`Permutation.dfy` and `Words.dfy`, and `InteriorNode.dfy`. The tree itself (`Tree.dfy`) is a class over a
heap of nodes with parent, child, link and leaf-chain pointers; it performs put, get and remove step by
step, with the branches, constants and version counts of the source. `SlotNodes.dfy` proves that the slots
of a node follow these steps. `Effects.dfy` says what a whole operation leaves as it was: put and remove state
the exact new contents and counters of the border they are about, and that other nodes keep theirs.

The shape invariant (`Store.dfy`) is flat: each clause speaks of one node and its neighbours. A ghost
annotation gives every node its layer prefix, its height and a range of places that contains everything
below it. Ranges are not a partition; that those of two borders of one layer never overlap follows from
routing (`Routing.dfy`). Before a key goes in, the ranges on its way are widened (`Widen.dfy`). One module
per kind of step proves that the step keeps the invariant (`InsertStep`, `SplitStep`, `AttachStep`,
`InnerSplitStep`, `PlantStep`, `RemoveStep`, `InnerRemoveStep`), `Meaning.dfy` says what it does to the map
the store stands for, `Track.dfy` what it does to the version counters, and `Reroute.dfy` what removal does
to routing. `Runs.dfy` states the result for whole runs. The constructors establish the invariant for an
empty store, and put keeps it while it sets any key, so some store keeps it for every finite map.

**The scan.** `Interval.dfy` fixes what end points mean and proves the comparisons and cuts exact;
`ScanFacts.dfy`, `Limit.dfy` and `Scan.dfy` prove that the walk along the leaf chain and down the links delivers
exactly the interval, up to the size limit; `Records.dfy` that its records name the holder of every tuple. `Phantom.dfy` proves that the recorded versions expose every key that is entered later, even if it
is gone again by the time they are compared, and raise no alarm for updates and removals that retire no node.

**The version word.** `VersionLock.dfy` is a state machine of one border and any number of threads; each
step is one atomic access. Beside safety it states what each section does to the word, and that undisturbed
lookups and insertions go through.

**Reclamation.** `Reclamation.dfy` is a state machine of the session table, the epoch thread with its two
slot-by-slot scans, and the gc thread. `RetireQueue.dfy` is one container of retired objects, and
`Cycles.dfy` proves that the threads do their work: what undisturbed passes end with, and that none gets stuck.

## Where the code decided

- The comment above `insert_lv` (include/border_helper.h:103-105) says that a value is moved to the new
  layer when eight bytes collide. The code keeps both: the eight-byte key has length code 8, the link 9.
- The documentation of `scan` (include/kvs.h:214-222) says that there is no limit on the side whose end is
  `INF`. The code still looks up the start border with the left key (include/interface_scan.h:60-81), so a
  scan with `INF` and a non-empty left key skips everything before that border. `Scans.Scan` proves that
  what it returns without a size limit is the filter if and only if `StartHarmless` holds: the left end is
  not `INF`, or the left key is empty, or the start border has no left neighbour, or the right end admits no
  stored key. `Scans.Missed` names a key that is lost in every other case, and `Failures.ScanMisses` is a tree
  on which it happens.
- Overwriting an allocated value by one kept in the slot frees the old value at once
  (include/link_or_value.h:145-160), without waiting for readers. `Runs.Perform` says exactly which values
  these are (`FreedBy`), and `Runs.Run` that there are none when no put keeps its value in the slot;
  `Failures.FreedExample` is a put that frees one.
- A removal raises no dirty bit (include/border_node.h:127-128), so the insert counter of a border does not
  count removals, and the model does not count them either.

## Model

| member | source | states |
|---|---|---|
| `Keys.BorderCmpIsOrder` | include/border_node.h:299-329 | the eight-byte compare with the length as tie-break decides one strict order on tuples, and reports equality exactly for equal tuples |
| `Keys.InteriorLessIsOrder` | include/interior_node.h:186-211 | the min-length compare of interior routing decides the same order, whatever length (truncated or not) the caller passes |
| `Keys.SplitTestIsOrder` | include/border_helper.h:228-242 | the compare of a border split, with its rank clause, decides the same order |
| `Keys.TupleOrderIsKeyOrder` | include/interface_put.h:77-87 | the layered order is the lexicographic order of byte strings: the first slice decides, and keys that share a link are ordered by what follows it |
| `Keys.TupleRoundTrip` | include/scan_helper.h:226-235 | cutting a key into its slice and the rest, and rebuilding it as a scan does, loses nothing |
| `Keys.TupleOfBytes` | include/scan_helper.h:226-235 | the bytes a stored tuple contributes to a key are cut back into that tuple |
| `Keys.LinkShared` | include/border_node.h:511-529 | two keys share a link exactly when both go on past eight bytes and agree on those |
| `Keys.KeyLessTotal` | include/scan_helper.h:358-387 | the order of keys by which both end points are compared is total, irreflexive and asymmetric |
| `Contents.SplitIsRank` | include/border_helper.h:228-242 | the split test sends the new key to the lower node exactly when its rank is at most 8, and the front of the upper node is a non-empty separator |
| `Contents.SplitEntriesCorrect` | include/border_helper.h:186-255 | lower followed by upper contents are the old contents with the key inserted at its rank, sizes 9 and 7 or 8 and 8, both sorted, separated by the front of the upper node |
| `Contents.SplitInteriorCorrect` | include/interior_helper.h:61-120 | left separators, pivot and right separators are the old ones with the new one inserted; children likewise, 9 and 8 or 8 and 9 |
| `Contents.ChildIndexUnique` | include/interior_node.h:186-211 | routing is determined by the separators around the chosen child |
| `Contents.DropRoutes` | include/interior_node.h:86-103 | dropping a child hands its key range to one neighbour and routes every other key to the same child |
| `Contents.InsertKeepsSorted` | include/border_node.h:299-329 | inserting at the computed rank keeps the contents sorted |
| `Words.WordIsNibbles` | include/permutation.h:22-30 | a permutation word is determined by its sixteen nibbles |
| `Permutations.InsertNib` | include/permutation.h:143-167 | after insert, ranks below are untouched, the new slot stands at its rank, and ranks above moved up by one |
| `Permutations.DeleteNib` | include/permutation.h:55-77 | after delete_rank, ranks below are untouched and ranks above moved down by one |
| `Permutations.InsertedSlots` | include/permutation.h:126-167 | inc_key_num and insert together insert a slot into the sequence the word stands for |
| `Permutations.InsertedZeros` | include/permutation.h:126-167 | nibbles at or above the count stay zero after an insertion |
| `Permutations.DeletedSlots` | include/permutation.h:45-77 | delete_rank and dec_key_num together remove a slot from the sequence |
| `Permutations.DeletedZeros` | include/permutation.h:45-77 | nibbles at or above the count stay zero after a deletion |
| `Permutations.DeleteUndoesInsert` | include/permutation.h:45-167 | deleting what was inserted restores the word bit for bit |
| `Permutations.Permutation.GetEmptySlot` | include/permutation.h:84-99 | the slot returned is the least one not in use, for every count below 15 |
| `Permutations.Permutation.GetIndexOfRank` | include/permutation.h:116-121 | the slot read by shifting is the one at that rank of the sequence |
| `Permutations.Permutation.InsertSlot` | include/permutation.h:126-167 | the word stays fit and its sequence gains the slot at the rank |
| `Permutations.Permutation.DeleteSlot` | include/permutation.h:45-77 | the word stays fit and its sequence loses the slot at the rank |
| `Permutations.Permutation.SplitDest` | include/permutation.h:172-179 | the word of the new border lists its slots in order |
| `BorderNodes.BorderNode.ComputeRankIfInsert` | include/border_node.h:299-329 | returns the rank of an absent key, and 0 for a present one |
| `BorderNodes.BorderNode.GetLvOf` | include/border_node.h:341-389 | finds a key exactly when it is present, at its slot |
| `BorderNodes.BorderNode.GetLvOfWithoutLock` | include/border_node.h:391-427 | the same answer although the scan goes on after a hit |
| `BorderNodes.BorderNode.InsertLvAt` | include/border_node.h:499-540 | the contents gain the entry at its rank and stay sorted |
| `BorderNodes.BorderNode.SetLv` | include/link_or_value.h:145-161 | a slot in use gets another payload; keys, order and the other entries stay |
| `BorderNodes.BorderNode.DeleteAt` | include/border_node.h:37-59 | the contents lose the entry at the rank; an allocated value is handed to reclamation, an in-slot one is not |
| `BorderNodes.BorderNode.DeleteOf` | include/border_node.h:123-141 | the entry with the tuple goes, an allocated value in it is handed to reclamation, and the node is reported empty exactly when it is |
| `BorderNodes.BorderNode.MoveUpper` | include/border_helper.h:186-210 | the loop that keeps taking rank 8 moves exactly the seven highest entries, into slots 0 to 6 in order |
| `BorderNodes.BorderNode.Split` | include/border_helper.h:186-255 | loop, comparison and insertion together compute `SplitEntries`; slot 0 of the new node holds its minimum, which is not the empty key |
| `InteriorNodes.InteriorNode.GetChildOf` | include/interior_node.h:182-211 | the loop returns the child the separators route the key to |
| `InteriorNodes.InteriorNode.Insert` | include/interior_node.h:248-292 | separator and child are inserted at the place routing gives, by shifting in place |
| `InteriorNodes.InteriorNode.DeleteOf` | include/interior_node.h:86-103 | leftmost, middle or rightmost child and the separator beside it are dropped, by shifting in place |
| `InteriorNodes.InteriorNode.SwapChild` | include/interior_node.h:344-355 | exactly the first occurrence of the old child is replaced |
| `InteriorNodes.InteriorNode.Split` | include/interior_helper.h:74-120 | the range moves, the pivot and the insertion together compute `SplitInterior` |
| `SlotNodes.Search` | include/border_node.h:341-389 | the search over the slots of an object that shows a node of the tree finds what the heap record holds, payload included |
| `SlotNodes.Enter` | include/border_helper.h:140-150 | the slots after an insertion show the node after the tree's insertion step |
| `SlotNodes.Divide` | include/border_helper.h:154-255 | the slots of both borders after a split show both nodes after the tree's split step |
| `SlotNodes.Replace` | include/link_or_value.h:145-161 | the slots after overwriting a value show the node after the tree's overwriting step |
| `SlotNodes.Take` | include/border_node.h:123-141 | the slots after a removal show the node after the tree's removal step |
| `SlotNodes.Descend` | include/interior_node.h:182-211 | one step of the descent over the slots is one step of the route in the tree |
| `SlotNodes.Adopt` | include/interior_node.h:248-292 | the slots after entering a child show the node after the tree's step |
| `SlotNodes.DivideRow` | include/interior_helper.h:74-120 | the slots of both interior nodes after a split show both nodes after the tree's split step |
| `SlotNodes.Drop` | include/interior_node.h:86-103 | the slots after dropping a child show the node after the tree's step |
| `InsertStep.InsertKeepsShape` | include/border_helper.h:117-150 | entering a value or a link in a border with room keeps the shape invariant |
| `SplitStep.SplitKeepsShape` | include/border_helper.h:154-255 | splitting a full border keeps the shape invariant up to the missing separator, and leaves room for it in the parent |
| `AttachStep.CrownKeepsShape` | include/border_helper.h:71-100 | a new interior node over the halves of a layer root takes its place under the link or root pointer |
| `AttachStep.AdoptKeepsShape` | include/border_helper.h:329-335 | entering the right half in a parent with room keeps the shape invariant |
| `InnerSplitStep.InnerSplitKeepsShape` | include/interior_helper.h:61-184 | splitting a full interior node keeps the shape invariant and passes the pending half up |
| `PlantStep.PlantKeepsShape` | include/border_node.h:474-529 | building the borders of a new layer from the last slice up keeps the shape invariant |
| `RemoveStep.TakeKeepsShape` | include/border_node.h:123-200 | removing one of several entries keeps the shape invariant |
| `RemoveStep.EmptyKeepsShape` | include/border_node.h:169-175 | the emptied top root border stays, marked deleted |
| `RemoveStep.BuryKeepsShape` | include/border_node.h:141-182 | unlinking an emptied border from the leaf chain keeps the shape invariant, and one pointer to it is left |
| `InnerRemoveStep.DropKeepsShape` | include/interior_node.h:86-103 | dropping the pointer to a removed child keeps the shape invariant |
| `InnerRemoveStep.CollapseKeepsShape` | include/interior_node.h:55-85 | replacing a node with one child by that child keeps the shape invariant, at the root, under a link and under an interior node |
| `Reroute.DropKeepsRoutes` | include/interior_node.h:86-103 | in the whole tree, dropping a child changes no route that did not end at it |
| `Reroute.CollapseKeepsRoutes` | include/interior_node.h:55-85 | in the whole tree, the collapse changes no route that did not end at the removed child |
| `Routing.RootUnique` | include/border_node.h:511-529 | one layer has one root |
| `Routing.OnRoute` | include/common_helper.h:58-75 | every node of a layer is on the way of the keys in its range |
| `Routing.PlaceOfKey` | include/interface_get.h:24-110 | a stored key is in the border its slice is routed to, or below a link of that border |
| `Routing.Miss` | include/interface_get.h:57-70 | a failed lookup means that the key is stored nowhere |
| `Routing.Hit` | include/interface_get.h:71-90 | a short remainder is stored only in the border it is routed to |
| `Widen.Extend` | include/common_helper.h:58-75 | the ranges along a descent can be widened to hold the key without disturbing shape or leaf chain |
| `TreeFacts.RootFlag` | include/common_helper.h:45-49 | the root flag is set exactly on the roots of layers |
| `TreeFacts.EntryAlone` | include/interface_put.h:155-200 | no other border holds the key of an entry that was found |
| `TreeFacts.LocatedTop` | include/interface_put.h:77-97 | a key of at most eight bytes is placed by one descent in the top layer |
| `TreeFacts.ValueStored` | include/interface_put.h:190-204 | setting a key keeps every allocated value stored under one key or released once |
| `TreeFacts.ValueDropped` | include/border_node.h:40-54 | removing a key keeps every allocated value stored under one key or released once |
| `Trees.Tree.FindBorder` | include/common_helper.h:28-85 | the descent ends in the border the key is routed to, for any length passed |
| `Trees.Tree.Locate` | include/interface_put.h:70-259 | the traversal shared by put, get and remove ends at the place of the key, layer by layer |
| `Trees.Tree.Get` | include/interface_get.h:20-114 | returns the mapped value, or WARN_NOT_EXIST for an absent key |
| `Trees.Tree.Put` | include/interface_put.h:29-259 | sets exactly one key and keeps every invariant, or returns WARN_UNIQUE_RESTRICTION and changes nothing; retires exactly the displaced allocated value; an existing key gets its value in place and no version of any node moves; a new key is entered in the one border it is routed to, in its slots or by an exact split into halves of 9 and 7 or 8 and 8, that border counts one insertion (and one split), each node above it at most one of each, and every other node keeps contents and counts |
| `Trees.Tree.CreateLayer` | include/border_node.h:474-529 | the chain of borders built for a key of any length stores exactly that key |
| `Trees.Tree.InsertLv` | include/border_helper.h:117-150 | the store gains exactly one key, with or without a split |
| `Trees.Tree.BorderSplit` | include/border_helper.h:154-335 | split, placement and propagation keep every invariant and gain exactly one key |
| `Trees.Tree.AttachRight` | include/interior_helper.h:61-184 | the upward propagation terminates at the top of the layer and stores exactly what was stored |
| `Trees.Tree.CreateInteriorParent` | include/border_helper.h:71-100 | the new parent is linked from the root pointer or the link of the layer above |
| `Trees.Tree.InteriorSplit` | include/interior_helper.h:61-120 | each child of the halves names its new holder as parent, and the pivot waits for the parent |
| `Trees.Tree.Remove` | include/interface_remove.h:21-167 | removes exactly one key and keeps every invariant, or returns OK_NOT_FOUND or OK_ROOT_IS_NULL and changes nothing; retires the removed value and keeps the retired nodes in order; a border that keeps an entry loses exactly that one and nothing else in the tree changes; otherwise the border leaves the tree or the top root is marked, no border moves a counter, and an interior node counts one for each child it gives up |
| `Trees.Tree.DropEntry` | include/border_node.h:123-200 | one entry goes; removal repeats upward until a node stays or the top root is empty |
| `Trees.Tree.DropLast` | include/border_node.h:141-200 | the emptied border leaves the chain, its parent gives up the pointer, and it is retired after its ancestors |
| `Trees.Tree.DropChild` | include/interior_node.h:47-109 | one child goes, with a collapse when one is left |
| `Trees.Tree.Collapse` | include/interior_node.h:55-85 | the collapsed node is retired once and its sibling takes its place |
| `Runs.Run` | include/interface_put.h:29-259 | over every sequence of puts and removals the tree and a plain map agree; without in-slot values nothing is freed on the spot |
| `Runs.Perform` | include/interface_remove.h:21-167 | every operation takes the map one step and reports what the map says |
| `Runs.ReachedFromRoot` | include/base_node.h:188-199 | every node of the tree is reached from the root along pointers matched by parent pointers |
| `Runs.NodesConserved` | include/interior_node.h:80-85 | every node ever allocated is reachable or retired exactly once, never both |
| `Runs.ChainReaches` | include/border_helper.h:166-181 | following next from a border reaches every border of its layer further right |
| `Runs.ChainAscends` | include/border_node.h:146-166 | following next reaches only borders of the layer, in ascending order, and prev is the way back |
| `Runs.ChainEntries` | include/scan_helper.h:431-437 | every entry of a border is before every entry of the borders of its layer further right |
| `Runs.SeparatorsBound` | include/interior_node.h:186-211 | every key below a child lies between the separators beside it |
| `Interval.LeftSkipsExactly` | include/scan_helper.h:358-373 | the left test skips exactly the keys before the left end point |
| `Interval.LeftCutExactly` | include/scan_helper.h:260-288 | below a link, the cut left end point admits exactly what the whole one admits |
| `Interval.RightTakesExactly` | include/scan_helper.h:379-387 | the right test accepts exactly the keys not beyond the right end point |
| `Interval.RightCutExactly` | include/scan_helper.h:289-311 | below a link, the right end point handed down admits exactly what the whole one admits |
| `Interval.RightCutStops` | include/scan_helper.h:301-307 | when a link is beyond the right end point, so is everything after it |
| `ScanFacts.PlaceOf` | include/scan_helper.h:102-109 | every key of a layer sits in the border its slice is routed to |
| `ScanFacts.Gap` | include/scan_helper.h:219-402 | nothing of the layer lies between two neighbouring entries of a border |
| `ScanFacts.NextBorder` | include/scan_helper.h:431-437 | nothing of the layer lies between a border and its successor in the chain |
| `ScanFacts.LinkExhausts` | include/scan_helper.h:315-322 | a scan of the layer below a link, with the cut end points, delivers everything wanted at the link |
| `ScanFacts.StartBefore` | include/interface_scan.h:65-81 | the start border found with a length narrowed to eight bits is the correct one or one to its left, for every key length |
| `Scans.ScanLink` | include/scan_helper.h:241-322 | a link adds exactly what the layer below it holds of the interval, whatever the size limit, and its records come after those before it |
| `Scans.ScanEntry` | include/scan_helper.h:324-402 | a value entry adds its tuple exactly if it lies in the interval, with one record of this border, and stops the scan exactly at the limit or the right end |
| `Scans.ScanBorder` | include/scan_helper.h:163-438 | one border adds exactly its part of the interval; each tuple has one record of the border that holds it, and a border without tuples one record |
| `Scans.ScanLayer` | include/scan_helper.h:51-158 | a scan of one layer delivers exactly the keys of the interval below its prefix and not before the start border, in ascending order, across all borders and links |
| `Scans.Scan` | include/interface_scan.h:18-127 | in every tree and for every combination of end points it accepts: a result shorter than the limit (or without one) equals the filter if and only if the start border is harmless, and otherwise its first `max` tuples are the first `max` of the filter under the same condition; every record is of a border of the tree at its present version, and every tuple has the record of the border that holds it, in order; without links the result has at most `max` tuples and every key of the interval, up to the last tuple if the limit was reached, is in the care of a recorded border |
| `Scans.FrontDone` | include/scan_helper.h:345-347 | when the limit was reached, the first `max` tuples are the front of the filter exactly if nothing before the start border is wanted |
| `Scans.CoverUpTo` | include/scan_helper.h:345-347 | when the limit stopped the scan, every border responsible for a key up to the last tuple has been recorded |
| `ScanLimit.FrontedValue` | include/scan_helper.h:345-347 | a value delivered in place keeps the delivery complete up to the point where the limit is reached |
| `ScanLimit.FrontedLink` | include/scan_helper.h:315-322 | so does what the layer below a link delivers |
| `ScanRecords.LogsSay` | include/scan_helper.h:326-346 | records in order of the tuples name borders of the tree at their present versions, and the holder of every tuple |
| `ScanRecords.LogConcat` | include/scan_helper.h:315-322 | the records of a lower layer, entered between those of the upper one, keep that correspondence |
| `Scans.StartDecides` | include/interface_scan.h:60-81 | nothing wanted lies before the start border exactly when the left end is closed or has no key, the start border is the leftmost, or the right end admits nothing |
| `Scans.Missed` | include/interface_scan.h:60-81 | with an INF left end, a left neighbour of the start border and a right end that admits some key, a stored key of the interval lies before the start border |
| `Failures.ExampleShape` | include/interface_scan.h:60-81 | a tree of two borders under one interior node has the shape invariant |
| `Failures.ExampleAgrees` | include/interface_scan.h:60-81 | that tree stores exactly its two keys |
| `Failures.ExampleHarmful` | include/interface_scan.h:60-81 | an INF left end with the second key as left key starts in the second border: the start is not harmless |
| `Failures.ScanMisses` | include/interface_scan.h:60-81 | that scan of that tree does not return the filter, although both keys lie in the interval |
| `Failures.FreedExample` | include/link_or_value.h:145-160 | an allocated value overwritten by one kept in the slot is freed by the put itself |
| `Scans.SomeKey` | include/scan_helper.h:219-241 | a border that is not empty leads to a stored key, through as many layers as it takes |
| `Scans.CoverAll` | include/scan_helper.h:388-412 | between the start border and the last one, every border responsible for a key of the interval has been recorded |
| `Effects.SplitTook` | include/border_helper.h:154-335 | split, placement and propagation give the border and the new one exactly the halves, one count each, and change no node that is not above them |
| `Effects.SplitAttaches` | include/interior_helper.h:61-184 | an interior split and what follows above it change each node above the left half at most once |
| `Effects.SplitSizes` | include/interior_helper.h:74-120 | a split interior node keeps eight separators if it took the new child and seven if not |
| `Effects.UpdatesKeeps` | include/interface_put.h:174-197 | replacing a value moves no version |
| `Effects.LeavesKeeps` | include/border_node.h:127-128 | a removal that retires no node moves no version, unless it emptied the tree |
| `Track.SplitTracks` | include/border_helper.h:154-165 | a split moves the insert and the split counter of the border by one each and leaves the version of every other node alone |
| `Phantom.MovedDiffers` | include/version.h:46-48 | a counter that moved fewer than 2^29 times makes the words differ |
| `Phantom.PutKeepsGuard` | include/border_helper.h:117-152 | a put that enters the watched key moves a counter of its border; any other put moves one or leaves the border responsible, and none takes back a move |
| `Phantom.RemoveKeepsGuard` | include/border_node.h:141-182 | a removal leaves the watched border responsible, or removes it and marks it deleted; what differed before still differs |
| `Phantom.ScanThenRun` | include/interface_scan.h:94-115 | after a scan and any sequence of puts and removals, if any of them entered a key of the interval that was absent at that moment, some recorded version is unequal at the end, even if the key was stored when the scan read, or has been removed again |
| `Phantom.PerformUpdate` | include/interface_put.h:174-197 | an operation that enters no key moves no counter of a border that stays, and no version at all if nothing is retired and the tree is not emptied |
| `Phantom.ScanThenUpdates` | include/interface_scan.h:94-115 | no false alarm: after a scan of any tree and any sequence of updates and removals, no recorded border still in the tree has moved a counter, and if no node was retired and the tree not emptied every recorded version still matches |
| `VersionLock.PackInjective` | include/version.h:46-48 | comparing the eight bytes of a word compares every field |
| `VersionLock.NoSpill` | include/version.h:365-385 | unlocking wraps the counters inside their 29 bits and touches no other flag |
| `VersionLock.StepInv` | include/version.h:291-385 | every atomic step of every thread keeps exclusion, counters and the faithfulness of readers |
| `VersionLock.MutualExclusion` | include/version.h:291-312 | in every run at most one thread holds the lock |
| `VersionLock.WindowUnchanged` | include/version.h:365-385 | a lookup during which no tracked section completed, and that ends with no dirty bit, saw one unchanged node at every state of its window |
| `VersionLock.OptimisticReadSound` | include/border_node.h:341-389 | in every run, equal stable versions with fewer than 2^29 tracked sections in between mean that the node was the same at every state since the first version was taken, and that the answer is correct |
| `VersionLock.SectionSoFar` | include/version.h:291-312 | from lock to unlock the word shows exactly the dirty bits its holder has raised, and its counters stand still |
| `VersionLock.SectionCounts` | include/version.h:365-385 | in every run, a section moves the insert counter by one exactly if its holder raised the inserting bit, the split counter exactly if it raised the splitting bit, and leaves the word stable |
| `VersionLock.CounterSteps` | include/version.h:365-385 | nothing but an unlock moves a counter |
| `VersionLock.LookupSucceeds` | include/border_node.h:341-389 | a lookup that nobody disturbs ends with the right answer and a matching version after at most two reads per key and two more |
| `VersionLock.InsertionSucceeds` | include/border_node.h:499-540 | an insertion into a node nobody holds goes through, step by step, and moves only the insert counter |
| `Reclamation.GcEpochExact` | include/manager_thread.h:43-60 | the subtractions never wrap; the new gc epoch is not below the old one and is below every active begin epoch |
| `Reclamation.StepInv` | include/manager_thread.h:19-72 | every step of sessions, epoch thread and gc thread keeps the invariant |
| `Reclamation.EpochDiscipline` | include/manager_thread.h:19-64 | in every run an active session began in this epoch or the last, and the gc epoch is below it and never decreases |
| `Reclamation.SafeReclamation` | include/garbage_collection.h:75-124 | in every run an object is freed only after every session that was active when it was retired has left |
| `Cycles.VerifyPass` | include/manager_thread.h:21-33 | whatever other threads do, a verify scan during which no session comes or goes succeeds exactly when every session is of the present epoch, idle slots being ignored, after one step per slot and one; otherwise it gives up at the first other session |
| `Cycles.MinimumPass` | include/manager_thread.h:43-60 | an undisturbed minimum scan sets the gc epoch to one less than the least begin epoch of a session, or than the epoch when there is none |
| `Cycles.CyclePass` | include/manager_thread.h:21-60 | an undisturbed cycle with all sessions of the present epoch advances the epoch by one and the gc epoch to the old epoch, or one less while sessions go on |
| `Cycles.EpochThreadReady` | include/manager_thread.h:19-64 | the epoch thread always has a next step |
| `Cycles.GcPass` | include/garbage_collection.h:75-97 | a pass over one container that nobody pushes to meanwhile frees exactly the front older than the limit, in order, keeps the rest, and goes on to the next slot |
| `Cycles.NothingStays` | include/garbage_collection.h:75-97 | two epochs after the last session of a slot has left, such a pass leaves nothing in its container |
| `Cycles.GcThreadReady` | include/thread_info_table.h:52-56 | the gc thread always has a next step, and starts a pass with the present gc epoch |
| `Cycles.SessionCycle` | include/thread_info_table.h:24-33 | a free slot can be taken, its session begins in the present epoch, retires under it and leaves the slot free |
| `RetireQueues.RetireQueue.Push` | include/garbage_collection.h:130-137 | a pushed object goes to the end of what is pending |
| `RetireQueues.RetireQueue.Gc` | include/garbage_collection.h:75-124 | exactly the front older than the limit is freed, in push order; cache and queue hold the rest |
| `RetireQueues.RetireQueue.Fin` | include/garbage_collection.h:27-56 | at shutdown every object pushed has been freed exactly once |
| `RetireQueues.OldFrontIsAll` | include/garbage_collection.h:75-97 | with ascending epochs the front that is freed is everything older than the limit |
| `RetireQueues.ContainersOrdered` | include/thread_info_table.h:24-33 | in every run the epochs in every container ascend |
| `RetireQueues.PendingStep` | include/garbage_collection.h:75-97 | a step pushes at the end of a container, frees at its front, or leaves it alone |

## Left out

- Concurrency of put, get and remove: `Trees.Tree` models one operation at a time, so the retry branches
  that only another thread can cause are absent. A validated lookup concurrent with a removal is not covered,
  because removals are not tracked by the version word.
- Nodes inside `Trees.Tree` are records in a map from identities; `SlotNodes` proves that slot objects follow
  the steps of the tree one by one. Redirecting a link (`set_next_layer` on a slot found by `get_lv`) and
  `swap_child` during a collapse have no such lemma.
- Scans.Scan: in a tree with links, what is delivered after the first `max` tuples is only right and in order,
  because the source counts the limit across layers and goes on in the outer layer when an inner scan stops;
  such a result can be longer than `max`.
- Phantom.ScanThenRun: keys of at most eight bytes, scanned in a tree without links; the link branch of the
  source can end a scan without recording the border. A scan that found a null root records nothing.
- VersionLock.OptimisticReadSound: writers that insert, split or replace a value; not removals.
- Reclamation.SafeReclamation: reading the epoch and publishing it is one step, and the forced exit of the
  verify loop at shutdown is not modelled. The two containers of a session are represented by one.
- Epoch numbers are unbounded; the source has 64 bits.
- Addresses of freed nodes are never handed out again, and `get_lv` does not look into slots out of use.
- A shift by a multiple of four bits is written as repeated shifts by one nibble in `Words.dfy`.
- Uniform leaf depth, which removals give up.
- The order of `key_tuple` and `rearrange`, which no modelled path uses.
- Raw memory of values, alignment, allocation failure, weak memory order, pauses and sleeps.
- Session admission limits, storages, parallel destruction, memory usage reports, display and logging.
