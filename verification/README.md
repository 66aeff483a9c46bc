# Synsema: what its hard parts keep

A Dafny model of the parts of Synsema in which a small amount of code promises a lot, with proofs that it keeps
what it promises. `dafny verify dfyconfig.toml` checks everything.

* **The blackboard** (`Journal`, `Compaction`, `AllOrNothing`, `Blackboard`). Many runs write and delete shared keys
  at the same time; a run (a request, its agents and their agents) is confirmed once, as a whole, or undone as a
  whole. Instead of a log, each touched key keeps a chain: a base and at most one version per open run. `Journal` is
  the full log nobody keeps. The class `Blackboard` has the source's three structures and a ghost history, and its
  invariant says that they are what that history compacts to; every locked section is a method that keeps it.
  `AllOrNothing` is about whole histories: a cut run is erased, an uncut one is as if it had written permanently.
* **Signals and agents** (`Swarm`). The same undo for queued signals, under its own lock and against the history of
  the runs, and the ids of agents.
* **The resource section of an executable** (`PeBytes`, `PeTree`, `PeWrite`, `PeParse`, `PeParsed`, `PeAppend`,
  `PeImage`, `PeIcon`, `PeFormat`, `PeWitness`), in the format of "The .rsrc Section" of the Microsoft PE Format
  specification. A two-pass serializer with four cursors over an array, the parser that goes back through the section
  table, the edit of the whole image, and the round trip between them. `PeFormat` is the format on its own: what is
  read and what is written stand where it says, byte by byte. `PeWitness` has concrete images, of both kinds.
* **Lending folders to isolated children** (`Lending`, `LendingState`). The handshake as a state machine over the
  steps of any number of threads, and the shared object whose locked sections those steps are.
* **Resolving a path by hand** (`Walk`, `Links`), over an arbitrary file system with links and cycles; `Links` says
  what the file system means for it: where links, absolute and relative, and `..` lead, and which folders are the same.
* **What a path touches** (`Touching`, `Handshake`). The test by which a borrower decides whom to wait for, against the
  walk by which a builtin is denied a path; and the handshake with both in their places.
* **The capability decision** (`Capability`, `Decision`, `CapabilitySets`, `Narrowing`, `Authority`). The canonical
  order and the fast lookup, the decision over a chain of parents, and what a program run by another may do;
  `Authority` says in terms of types and scopes alone what is allowed, and what a refusal is blamed on.
* **The event bus** (`Bus`), **civil dates** (`Calendar`), **installing the framework** (`Install`), **uniform
  integers** (`Sampler`) and **bounded readers** (`Readers`).

## Where the code does less than its words

The model follows the code. Where that falls short of what the surrounding comments promise, a lemma gives a
concrete case and another says exactly when the promise holds.

* A borrower waits for the operations "that may touch" its folder, but it looks only at the literal path and at the
  place that leads to. A path that goes through the folder and leaves it again is denied once the folder is lent, and
  is not waited for if it was judged before: `/x`, a link to `/d/a/s/../../y`, while `/d/a` is lent
  (`Touching.PassingThroughIsMissed`); or a link to a name in it that does not exist yet
  (`Touching.DanglingLinkIsMissed`). `Touching.WaitsIff` and `Handshake.HandshakeIsSafeIff` say exactly when nothing
  is missed.
* A folder is given back, and known, by name. If `/w` is replaced by another folder while it is lent and the new one
  is lent too, giving back the second frees the first, which is still written to under the name it was moved to
  (`Handshake.FirstIsFreed`). And if `/w` was ever lent as another folder, the folder it is now never becomes known: a
  path that goes through it under a second name is granted while its child runs (`Handshake.AnotherIsKnown`).
  `Handshake.HandshakeIsSafeIff` says exactly when neither happens, and `Lending.UnreplacedIsSafe` what is enough.
* A tree written into an image with fewer than three data directories, or with no section that has addresses, is read
  back as no tree at all: `PeWitness.LosesResources`, `PeImage.RoundTripIff`.
* An upgrade never overwrites an edited file, but it puts the release's version in `<file>.new` without looking at what
  is there: `Install.NotesBesideAreLost`, `Install.LosesNothingIff`.
* A file torn by a write that failed is taken for the user's by the next install: `Install.TornFileIsKept`,
  `Install.FinishedIff`.
* The authority of a child narrows, except that a caller's `deny` does not travel (the source says so) and that two
  sets of the caller's chain become one layer: `Narrowing.DenialDoesNotTravel`, `Narrowing.PathsOfTwoSetsJoin`,
  `Narrowing.NarrowsIff`.

## Model

| member | source | states |
|---|---|---|
| `Blackboard.RefinesTheFullLog` | engine/crates/synsema-agents/src/blackboard.rs:30-56 | in every state, whatever sequence of writes, deletes and run events led to it, each key is worth exactly what the last entry of its full uncompacted log left; for every set of open runs undone, the chain minus those runs is worth what the log minus them is worth, and a key with no chain is worth the same whichever runs are undone |
| `Blackboard.ChainsAreTidy` | engine/crates/synsema-agents/src/blackboard.rs:44-68 | every chain is not empty, holds only versions of open runs, at most one per run, each indexed by the keys of its run, with exactly the top lacking a saved entry; with no run left there is no chain left |
| `Blackboard.CutRunLeavesNothing` | engine/crates/synsema-agents/src/blackboard.rs:268-287 | in every state after a finished run of which some part reported a cut, whatever other runs did since, every key is worth what it would be worth in the history without any of its writes and deletes, those made after the cut included |
| `Blackboard.CompactChain` | engine/crates/synsema-agents/src/blackboard.rs:78-96 | the backwards scan turns a chain into the compact form of the log it stands for, and reports a chain to drop exactly when what is left is permanent |
| `Blackboard.Blackboard.Record` | engine/crates/synsema-agents/src/blackboard.rs:170-193 | the four cases (no chain, same run on top, another run on top, nobody on top) each leave the key's chain and the runs' keys in step with the log one entry longer |
| `Blackboard.Blackboard.UndoKey` | engine/crates/synsema-agents/src/blackboard.rs:199-232 | taking a run's versions out of one key leaves that key compact for the log without the run, live entry included |
| `Blackboard.Blackboard.Rollback` | engine/crates/synsema-agents/src/blackboard.rs:197-233 | undoing by the keys a run has open undoes it in every key there is |
| `Blackboard.Blackboard.Commit` | engine/crates/synsema-agents/src/blackboard.rs:244-255 | confirming by the keys a run has open confirms it in every key there is |
| `Blackboard.Blackboard.CutRun` | engine/crates/synsema-agents/src/blackboard.rs:284-287 | the run is marked and undone whole, and stays in the table |
| `Blackboard.Blackboard.FinishIfDone` | engine/crates/synsema-agents/src/blackboard.rs:270-280 | with the owner closed and no agent alive the run is confirmed unless it was cut, and its state goes; otherwise nothing changes |
| `Blackboard.Blackboard.CloseRun` | engine/crates/synsema-agents/src/blackboard.rs:384-394 | the invariant is kept one event on, and the result says whether the run was undone |
| `Blackboard.Blackboard.AgentStarted` | engine/crates/synsema-agents/src/blackboard.rs:398-400 | the invariant is kept one event on |
| `Blackboard.Blackboard.AgentDone` | engine/crates/synsema-agents/src/blackboard.rs:405-415 | the invariant is kept one event on, and the result says whether the run was undone |
| `Blackboard.Blackboard.Write` | engine/crates/synsema-agents/src/blackboard.rs:336-363 | the key gets the value and its author for the thread's run, and the invariant is kept |
| `Blackboard.Blackboard.Delete` | engine/crates/synsema-agents/src/blackboard.rs:430-433 | the key goes for the thread's run, and the invariant is kept |
| `Blackboard.Blackboard.Read` | engine/crates/synsema-agents/src/blackboard.rs:417-428 | the value is what the full history left in that key |
| `Blackboard.UndoTop` | engine/crates/synsema-agents/src/blackboard.rs:203-230 | when the top belongs to the undone run, the saved entry of the version below (or the base) is the key's worth after the undo |
| `Blackboard.UndoBelowTop` | engine/crates/synsema-agents/src/blackboard.rs:203-209 | when the top belongs to another run, the undo leaves the live entry alone and the chain compact |
| `Blackboard.PushVersion` | engine/crates/synsema-agents/src/blackboard.rs:180-189 | saving the old top and pushing a version is appending one entry to the log |
| `Blackboard.SameRunOnTop` | engine/crates/synsema-agents/src/blackboard.rs:180-183 | a second write of the run on top needs no new version |
| `Compaction.CompactionIsInvisible` | engine/crates/synsema-agents/src/blackboard.rs:44-49 | the compact form of a log is worth what the log is worth, whichever set of open runs is undone |
| `Compaction.CompactedMinus` | engine/crates/synsema-agents/src/blackboard.rs:70-78 | undoing runs before or after compacting gives the same |
| `Compaction.CompactedConfirm` | engine/crates/synsema-agents/src/blackboard.rs:244-255 | confirming a run in the log or in its compact form compacts to the same |
| `Compaction.CompactedAppend` | engine/crates/synsema-agents/src/blackboard.rs:186-189 | compacting what is compact with one more entry on top is compacting the whole log |
| `Compaction.CompactedTwice` | engine/crates/synsema-agents/src/blackboard.rs:205-209 | what is compact stays as it is |
| `AllOrNothing.CutRunIsErased` | engine/crates/synsema-agents/src/blackboard.rs:282-307 | once a run that was cut has finished, and ever after, logs, values and run table are those of the same history with its writes and deletes erased |
| `AllOrNothing.UncutRunIsPublished` | engine/crates/synsema-agents/src/blackboard.rs:290-307 | while no part of a run reports a cut, every key is worth at every moment what it would be worth had the run written permanently |
| `AllOrNothing.FinishesWhenLastPartEnds` | engine/crates/synsema-agents/src/blackboard.rs:268-286 | a run finishes exactly when its owner closed and every launched agent ended, whichever was last; its state counts the live agents; and from then on, whatever follows, no log names it, so it is confirmed or undone once |
| `AllOrNothing.CloseAndAgentDoneCommute` | engine/crates/synsema-agents/src/blackboard.rs:384-415 | the close of the owner and the end of an agent commute, cut or not |
| `AllOrNothing.ReachableOpenOnly` | engine/crates/synsema-agents/src/blackboard.rs:268-280 | in every history only open runs are named in a log |
| `Swarm.SignalsAreKept` | engine/crates/synsema-agents/src/swarm.rs:375-412 | for every name, the signals consumed and then those pending are those sent, in order, minus only signals withdrawn while pending, each of a run of which a part reported a cut |
| `Swarm.CutRunHasNoSignals` | engine/crates/synsema-agents/src/swarm.rs:288-315 | in every reachable state a run that was cut and has finished has no pending signal once the thread that ended it has gone over the queues, unless it sent one after its last part had ended |
| `Swarm.Swarm.BoardCloseRun` | engine/crates/synsema-agents/src/swarm.rs:293-293 | the first lock of `close_run`: the answer says whether some part of the run reported a cut, and its signals are then owed |
| `Swarm.Swarm.BoardAgentDone` | engine/crates/synsema-agents/src/swarm.rs:305-305 | the same at the end of an agent |
| `Swarm.Swarm.Emit` | engine/crates/synsema-agents/src/swarm.rs:375-386 | one signal is queued behind the others of its name, for the thread's run |
| `Swarm.Swarm.Take` | engine/crates/synsema-agents/src/swarm.rs:407-412 | the oldest pending signal of that name is taken and recorded, or nothing changes |
| `Swarm.Swarm.DropSignalsOf` | engine/crates/synsema-agents/src/swarm.rs:310-315 | the second lock, whatever other threads did in between: no queue keeps a signal of the run, which was cut; the others keep theirs in order |
| `Swarm.Swarm.CloseRun` | engine/crates/synsema-agents/src/swarm.rs:292-296 | both locks in turn: if a part of the run reported a cut none of its signals is pending, and otherwise nothing is withdrawn |
| `Swarm.Swarm.AgentDone` | engine/crates/synsema-agents/src/swarm.rs:304-308 | both locks in turn at the end of an agent: if a part of the run reported a cut none of its signals is pending, and otherwise nothing is withdrawn |
| `Swarm.Swarm.RegisterNewAgent` | engine/crates/synsema-agents/src/swarm.rs:228-245 | the new id is none of those registered before |
| `Swarm.AgentIdIsInjective` | engine/crates/synsema-agents/src/swarm.rs:228-231 | `name_N` determines the name and the number, digits and underscores in names included |
| `Swarm.DecimalSaysTheNumber` | engine/crates/synsema-agents/src/swarm.rs:229-229 | the number in an id is written in decimal, without leading zeros |
| `Swarm.AgentsAreDistinct` | engine/crates/synsema-agents/src/swarm.rs:226-245 | the registered ids are pairwise distinct |
| `PeTree.SortedIsOrdered` | engine/crates/synsema-cli/src/pe.rs:232-255 | the top level is in the order the loader wants (names by code units, then ids) and holds the same entries with their subtrees in order |
| `PeTree.SortedIsAllOrdered` | engine/crates/synsema-cli/src/pe.rs:232-255 | every level is in that order |
| `PeTree.KeyLeTotal` | engine/crates/synsema-cli/src/pe.rs:236-243 | the order is total and only equal keys are level |
| `PeFormat.OrderedByNameThenId` | engine/crates/synsema-cli/src/pe.rs:232-255 | in the ordered tree, by the keys themselves: entries with names first, by code units as in a dictionary, then ids ascending |
| `PeTree.SortedTally` | engine/crates/synsema-cli/src/pe.rs:232-278 | ordering a tree changes none of the sizes it adds up to, nor its depth or number of entries |
| `PeTree.SortedFiltered` | engine/crates/synsema-cli/src/pe.rs:232-255 | the entries with some keys, in the ordered tree, are those entries ordered on their own |
| `PeTree.SortedTwice` | engine/crates/synsema-cli/src/pe.rs:232-255 | ordering twice is ordering once |
| `PeAppend.Measure` | engine/crates/synsema-cli/src/pe.rs:264-278 | the accumulated layout is the totals of the whole tree added to what was there |
| `PeAppend.SerializeTree` | engine/crates/synsema-cli/src/pe.rs:332-347 | the bytes hold the tree in the loader's order at that address, and the four cursors, returned with them, end exactly where the measure said: the regions are full and disjoint |
| `PeWrite.WriteDir` | engine/crates/synsema-cli/src/pe.rs:287-327 | a directory and everything below it is laid down between the cursors, which advance by its totals; nothing else in the buffer changes |
| `PeWrite.WriteEntry` | engine/crates/synsema-cli/src/pe.rs:295-325 | one entry with its key, its node and its slot is laid down and nothing else changes |
| `PeWrite.DirKept` | engine/crates/synsema-cli/src/pe.rs:287-327 | what is written elsewhere in the buffer leaves a written directory readable |
| `PeParse.DirReadBack` | engine/crates/synsema-cli/src/pe.rs:181-218 | a written directory is read back exactly, with the budget it used, if and only if it is within the depth and the number of entries the reader allows |
| `PeParse.NodeReadBack` | engine/crates/synsema-cli/src/pe.rs:205-214 | a written node is read back exactly under the same condition, its data through the section table |
| `PeAppend.PeFile.AppendRsrcSection` | engine/crates/synsema-cli/src/pe.rs:351-393 | succeeds exactly for an image that parses, has room for a header and whose section table can be read; then the file is the old one with section count, image size, resource directory, header slot and tail rewritten and nothing else; on error it is untouched |
| `PeImage.EditedParses` | engine/crates/synsema-cli/src/pe.rs:66-114 | the edited image parses to the same headers with one more section and the new resource directory |
| `PeFormat.ParseIsDescribed` | engine/crates/synsema-cli/src/pe.rs:66-114 | an image parses to headers if and only if they are what stands at the offsets of the format, the resources in the third data directory, 136 or 152 bytes from the signature |
| `PeFormat.EditIsAppended` | engine/crates/synsema-cli/src/pe.rs:367-393 | after the edit, byte by byte: the third data directory holds address and size, the new header the name `.rsrc`, size, address, place and characteristics, the section count one more, the image its new size, the data at the end; every other byte, the other data directories included, is as it was |
| `PeFormat.NewSectionFollows` | engine/crates/synsema-cli/src/pe.rs:357-366 | the new address is past the end in memory and on disk of every section, and right after the last of them |
| `PeFormat.LookupIsMap` | engine/crates/synsema-cli/src/pe.rs:140-157 | an address leads to an offset if and only if it does in the first section it is of, with all bytes asked for on disk |
| `PeFormat.TreeIsHeld` | engine/crates/synsema-cli/src/pe.rs:181-230 | the tree that is read stands in the image as the format lays it out: counts, entries of 8 bytes, names, subdirectories, data through the section table, from where the third data directory points |
| `PeFormat.ReadableIff` | engine/crates/synsema-cli/src/pe.rs:161-199 | the reader takes a tree if and only if it is at most four directories deep and has at most 8192 entries |
| `PeFormat.RoomIff` | engine/crates/synsema-cli/src/pe.rs:353-356 | there is room for a section header if and only if it ends within the headers |
| `PeImage.NewSectionIsDisjoint` | engine/crates/synsema-cli/src/pe.rs:357-366 | the new section's addresses are disjoint from those of every old section |
| `PeImage.NewAddresses` | engine/crates/synsema-cli/src/pe.rs:140-157 | every address range in the new section's contents leads to the appended bytes |
| `PeImage.OldBytesStay` | engine/crates/synsema-cli/src/pe.rs:140-157 | every address range that led into the file before leads to the same place after, with the same bytes wherever the edit did not write; and with the same bytes throughout when no section has its data among the headers |
| `PeImage.SectionReadBack` | engine/crates/synsema-cli/src/pe.rs:181-218 | reading the directory at the start of the new section gives the tree in order, if and only if it is within the reader's limits |
| `PeImage.TreeReadBack` | engine/crates/synsema-cli/src/pe.rs:221-230 | parsing the whole edited image gives the tree in order, or no resources at all when the image has no resource data directory or no section before the new one |
| `PeImage.RoundTripIff` | engine/crates/synsema-cli/src/pe.rs:88-93 | for a tree within the limits the round trip is exact if and only if the image has a third data directory and some earlier section with addresses, or the tree is empty |
| `PeWitness.ImageIsWellFormed` | engine/crates/synsema-cli/src/pe.rs:66-114 | 512-byte images of both formats with one section satisfy everything the theorems ask of an image, and have a resource directory exactly when they have more than two data directories |
| `PeWitness.LosesResources` | engine/crates/synsema-cli/src/pe.rs:88-93 | the images with two data directories are edited without an error, and read back they have no resources |
| `PeWitness.KeepsResources` | engine/crates/synsema-cli/src/pe.rs:88-93 | the images with sixteen are edited and read back with the tree that was given; read at their offsets, the third data directory names the new section and the second and fourth, which differ, are as they were |
| `PeParsed.ParsedTree` | engine/crates/synsema-cli/src/pe.rs:165-230 | whatever bytes are read, the tree that comes out is within the reader's depth and budget, and every id, name and count of it fits the format again; only an empty leaf would not |
| `PeIcon.AddIcon` | engine/crates/synsema-cli/src/pe.rs:435-452 | succeeds exactly for images, resources and headers that allow it, with the old tree's icon types replaced; on error the file is untouched |
| `PeIcon.WithIconsByKey` | engine/crates/synsema-cli/src/pe.rs:440-450 | by key, the new tree is the foreign entries, one icon directory and one group |
| `PeIcon.IconTypes` | engine/crates/synsema-cli/src/pe.rs:440-450 | types 3 and 14 are replaced and no other: the images under ids from 1, the group under id 1, in US English |
| `PeIcon.GroupIsLaidOut` | engine/crates/synsema-cli/src/pe.rs:408-426 | the group is 6 bytes and 14 for each image: its side twice, one plane, 32 bits, its bytes and its id |
| `PeIcon.WithIconsFits` | engine/crates/synsema-cli/src/pe.rs:431-452 | a tree that was read, with its icon types replaced, is within the format and the depth again, with at most two entries an image and four more |
| `PeIcon.IconsReplaceOnlyIcons` | engine/crates/synsema-cli/src/pe.rs:431-452 | read back, the image has the foreign resources it had, in order, the given images as its only icons and their group as its only group |
| `PeBytes.AlignUpIsLeast` | engine/crates/synsema-cli/src/pe.rs:130-136 | the least multiple of the alignment from the value on; the value itself when the alignment is 0 |
| `PeBytes.Align8IsLeast` | engine/crates/synsema-cli/src/pe.rs:315-338 | data and names are aligned to the least multiple of eight |
| `Lending.LendingIsSafe` | engine/crates/synsema-capabilities/src/isolated_areas.rs:355-422 | in every state reachable by any interleaving of threads, with the builtin's decision taken from the folders known and busy at that moment, no child runs on a folder into which another thread's builtin in progress was granted a path, given that folders in play under one name guard each other in that decision and that the borrower's test relates what touches its folders (the laws it asks of the tests hold in every file system, `Handshake.WorldIsLawful`); isolated runs start one at a time |
| `Lending.SafeIff` | engine/crates/synsema-capabilities/src/isolated_areas.rs:355-463 | for any folders and paths: every run over them is safe in every state if and only if the borrower's test relates every path to the folders it touches and the decision, with any two of them known from before and any one of a name busy, refuses what touches another one of that name |
| `Lending.GrantedWhileLent` | engine/crates/synsema-capabilities/src/isolated_areas.rs:365-369 | whenever that refusal fails, a run of steps in which the decision grants the path while a child runs on a folder it touches: two folders known from before, two lent under one name, the second given back |
| `Lending.UnreplacedIsSafe` | engine/crates/synsema-capabilities/src/isolated_areas.rs:364-372 | a run is safe in which every folder, when it is lent, is known as itself and no other one of its name is busy, and whose borrowers wait for what touches theirs |
| `Lending.NotWaitedFor` | engine/crates/synsema-capabilities/src/isolated_areas.rs:396-412 | a run of steps to the same end when the borrower's test misses a path |
| `Lending.LentUntilGivenBack` | engine/crates/synsema-capabilities/src/isolated_areas.rs:354-372 | in any world and any reachable state every name is busy exactly as often as it is lent and not given back; a borrow that gave up leaves nothing behind |
| `Lending.StepKeeps` | engine/crates/synsema-capabilities/src/isolated_areas.rs:193-262 | every step of every thread keeps the invariant of the handshake while folders of one name guard each other and the borrowers wait for what touches theirs; a `run` that let go of its holds at launch included |
| `Lending.LookFinds` | engine/crates/synsema-capabilities/src/isolated_areas.rs:381-410 | a look at the holds finds every danger there is to the lent folders |
| `Lending.StartsIff` | engine/crates/synsema-capabilities/src/isolated_areas.rs:381-410 | in every reachable state, whatever the tests: after a look the child may start if and only if no other thread holds a path that the test relates to a lent folder; what the borrower's own thread holds is no obstacle |
| `Lending.InPlayIsKnown` | engine/crates/synsema-capabilities/src/isolated_areas.rs:364-372 | in every reachable state no folder is known twice, and every folder lent or busy is known, as itself or as another that is the same |
| `LendingState.Areas.PublishLent` | engine/crates/synsema-capabilities/src/isolated_areas.rs:365-372 | each lent folder is busy once more, and known once by identity |
| `LendingState.Areas.Look` | engine/crates/synsema-capabilities/src/isolated_areas.rs:381-411 | one turn of the loop of `borrow`, the lock released in between: the notes are exactly those of a look at the other threads' holds, judged outside the lock, and the first hold in the way is found |
| `LendingState.Areas.GiveBackAll` | engine/crates/synsema-capabilities/src/isolated_areas.rs:453-462 | each lent folder takes the first busy entry of its name out |
| `Touching.WaitsIff` | engine/crates/synsema-capabilities/src/isolated_areas.rs:314-321 | for every file system, path and folder: the borrower's test relates whatever touches the folder, by going through it or ending in it, if and only if it relates what enters the folder and is left behind by the place the path leads to |
| `Touching.EndIsRelated` | engine/crates/synsema-capabilities/src/isolated_areas.rs:314-345 | ending in a lent folder, by name or by identity, is always seen |
| `Touching.AboveOrInsideIsRelated` | engine/crates/synsema-capabilities/src/isolated_areas.rs:310-317 | an operation on a folder above the lent one or on something in it, literally or where the path leads, is seen |
| `Touching.AboveByIdentityIsRelated` | engine/crates/synsema-capabilities/src/isolated_areas.rs:318-320 | so is one on a folder that is, under another name, a folder above the lent one |
| `Touching.PlaceOfExisting` | engine/crates/synsema-capabilities/src/isolated_areas.rs:287-345 | the place of a path that exists is where a resolution of it arrives |
| `Touching.StraightIsWaitedFor` | engine/crates/synsema-capabilities/src/isolated_areas.rs:314-321 | whatever an absolute path without links or dots touches is related |
| `Touching.PassingThroughIsMissed` | engine/crates/synsema-capabilities/src/isolated_areas.rs:314-321 | a link `/x` to `/d/a/s/../../y` goes through the lent folder `/d/a` and the test does not relate it |
| `Touching.DanglingLinkIsMissed` | engine/crates/synsema-capabilities/src/isolated_areas.rs:302-308 | a link `/x` to `/d/a/new`, which does not exist, goes through the lent folder and the test does not relate it |
| `Handshake.HandshakeIsSafeIff` | engine/crates/synsema-capabilities/src/isolated_areas.rs:355-463 | with the source's own walk, decision, borrower's test and identity in place, for any folders, those replaced by another of their name included, and any paths: every run over them is safe if and only if what touches them is waited for and refused |
| `Handshake.GenuineIsSafeIff` | engine/crates/synsema-capabilities/src/isolated_areas.rs:355-422 | for folders that are what they were when lent: every run is safe if and only if each path that enters and leaves one of them is related to it |
| `Handshake.WorldIsLawful` | engine/crates/synsema-capabilities/src/isolated_areas.rs:542-644 | in every file system the decision refuses no more with fewer folders known or busy, and always refuses what touches a folder that is known as itself and busy |
| `Handshake.KnownIsNoticed` | engine/crates/synsema-capabilities/src/isolated_areas.rs:630-644 | a busy folder that is known as itself is noticed in every path that touches it, by name or by identity |
| `Handshake.FirstIsFreed` | engine/crates/synsema-capabilities/src/isolated_areas.rs:453-462 | `/w` is folder 2 and `/v` folder 3, which was `/w` when it was lent: once a second lending of `/w` is given back, `/v` is granted while the first child runs |
| `Handshake.AnotherIsKnown` | engine/crates/synsema-capabilities/src/isolated_areas.rs:366-369 | `/w` is folder 3, also at `/v`, and is known as folder 2 from an earlier lending: a link that goes through folder 3 by its other name is granted while its child runs |
| `Handshake.StraightPathsAreSafe` | engine/crates/synsema-capabilities/src/isolated_areas.rs:355-422 | while builtins judge straight paths only, every run is safe |
| `Handshake.GrantedTouchesNothingBusy` | engine/crates/synsema-capabilities/src/isolated_areas.rs:542-554 | a path the decision lets through touches no busy folder, under whatever name it is known, while the folders are what they were when lent |
| `Walk.WalkPath` | engine/crates/synsema-capabilities/src/isolated_areas.rs:652-729 | terminates for every file system; the end, the areas touched and the identities are those of plain resolution cut at the first link lying in an area; the stack of identities is in step with the path at every turn |
| `Walk.EndsLikeResolution` | engine/crates/synsema-capabilities/src/isolated_areas.rs:647-652 | the end is that of resolution with no areas when that follows no link lying in an area; otherwise the walk stops at the first such link and names an area that holds it |
| `Walk.TouchedIsExact` | engine/crates/synsema-capabilities/src/isolated_areas.rs:696-700 | `touched` is one area per name, and exactly those names that hold a folder on the way to the end or to the link stopped at |
| `Walk.LinksAreBounded` | engine/crates/synsema-capabilities/src/isolated_areas.rs:605-606 | at most forty links are followed; a resolution that does not arrive last met a link it could not follow |
| `Walk.ResolveTwice` | engine/crates/synsema-capabilities/src/isolated_areas.rs:647-729 | resolving what a resolution arrived at arrives there again and meets no link |
| `Links.LinkLeadsOn` | engine/crates/synsema-capabilities/src/isolated_areas.rs:664-712 | a link in a folder leads where its target leads, from that folder when the target is relative and from the root when it is absolute, whatever follows the link |
| `Links.ParentLeadsUp` | engine/crates/synsema-capabilities/src/isolated_areas.rs:688-693 | `..` after a folder leads to the folder above it, and after the root to the root |
| `Links.MissingIsCreated` | engine/crates/synsema-capabilities/src/isolated_areas.rs:719-726 | a name that does not exist stays as it is, with all that follows it |
| `Links.GivesUpAfterForty` | engine/crates/synsema-capabilities/src/isolated_areas.rs:605-606 | with every link readable a resolution is given up at the forty-first link and no earlier |
| `Links.RelativeLinkIsSeen` | engine/crates/synsema-capabilities/src/isolated_areas.rs:652-712 | `/d/x`, a link to `s`, leads to `/d/s` and is refused while that is lent |
| `Links.HeldIff` | engine/crates/synsema-capabilities/src/isolated_areas.rs:661-663 | a folder is inside another if and only if its name is, or it or a folder above it is the inode the other was |
| `Links.SameIff` | engine/crates/synsema-capabilities/src/isolated_areas.rs:86-88 | two areas are the same by name, or when the one was the inode the other was |
| `Links.BornAgain` | engine/crates/synsema-capabilities/src/isolated_areas.rs:97-112 | an inode born later is another folder once the name of the first no longer leads to it, and the same while it does |
| `Walk.GrantedIsClear` | engine/crates/synsema-capabilities/src/isolated_areas.rs:542-554 | a path that is granted follows no link lying in a known area, and neither goes through a known area that is the same as a busy one, by name or by identity, nor ends in one; an unresolved one goes through no area |
| `Walk.GrantedIff` | engine/crates/synsema-capabilities/src/isolated_areas.rs:542-644 | with the folders known one for each name, a path is granted if and only if its plain resolution follows no link in a known folder, goes through no known folder that is a busy one, ends in no busy one, and, if it does not arrive, goes through no known folder |
| `Links.NamedIsInTheWay` | engine/crates/synsema-capabilities/src/isolated_areas.rs:542-554 | a refusal names what is in the way: a busy folder the path ends in or goes through, or else a known folder it goes through |
| `Walk.FewerInTheWay` | engine/crates/synsema-capabilities/src/isolated_areas.rs:630-644 | with fewer folders known and fewer busy nothing more is in the way |
| `Walk.FirstLinkInArea` | engine/crates/synsema-capabilities/src/isolated_areas.rs:702-706 | the first visit at which a link lies in an area |
| `Walk.FindInside` | engine/crates/synsema-capabilities/src/isolated_areas.rs:704-706 | the first area that holds the folder, if any does |
| `Walk.TouchAll` | engine/crates/synsema-capabilities/src/isolated_areas.rs:696-700 | the areas that hold the folder are added, one per name |
| `Capability.OrderIsTotal` | engine/crates/synsema-capabilities/src/model.rs:400-413 | the canonical order agrees with equality and with its reverse |
| `Capability.OrderIsTransitive` | engine/crates/synsema-capabilities/src/model.rs:400-413 | the canonical order is transitive |
| `Capability.InsertKeepsOrder` | engine/crates/synsema-capabilities/src/model.rs:315-318 | inserting keeps a set in strict canonical order and adds exactly that element |
| `Capability.SameElementsSameSet` | engine/crates/synsema-capabilities/src/model.rs:315-318 | the elements of a set in canonical order determine it |
| `Capability.FastLookupIsExact` | engine/crates/synsema-capabilities/src/model.rs:336-354 | for every set and request the fast lookup (backwards over the unscoped tail, one family only) finds the first element in canonical order that covers the request |
| `Capability.FoundComesFirst` | engine/crates/synsema-capabilities/src/model.rs:396-399 | that element comes before every other one that covers the request |
| `Capability.GrantOrderDoesNotMatter` | engine/crates/synsema-capabilities/src/model.rs:315-318 | the element named does not depend on the order of granting |
| `Authority.NarrowestIsNamed` | engine/crates/synsema-capabilities/src/model.rs:356-399 | of the grants that give a request alone the one named is no wider than any other: a scope before none, an exact scope before a pattern, a longer one before a shorter, public data before private; and of those as narrow one of the type itself before a `file` one |
| `Decision.AllowedIff` | engine/crates/synsema-capabilities/src/model.rs:1466-1589 | a request is allowed if and only if some set of the parent chain was granted it, while no set from the requester up to there denies it or finds an isolated folder in its way when it asks, and each has it within its host ceiling and every layer of every delegated ceiling |
| `Authority.AllowedExactly` | engine/crates/synsema-capabilities/src/model.rs:1466-1605 | the same in terms of types and scopes: the set that was granted it has a grant that answers for its type and names it and, for what is on disk, one that holds where it leads; no denial forbids it by name or on disk; the ceiling gives it; every layer of every delegated ceiling lets it through |
| `Authority.LayerIff` | engine/crates/synsema-capabilities/src/model.rs:481-528 | a layer covers a request if and only if some grant answers for its type and names it, and, if both are on disk, some grant holds where it leads |
| `Authority.DenialIff` | engine/crates/synsema-capabilities/src/model.rs:498-510 | a denial forbids a request it names, and a path that leads on disk to what it names |
| `Authority.GrantedUnderItsType` | engine/crates/synsema-capabilities/src/model.rs:541-548 | what is allowed was granted under its own type, or as `file` when it is to read or write one |
| `Authority.ReadingIsNotWriting` | engine/crates/synsema-capabilities/src/model.rs:541-548 | a grant to read lets nothing be written |
| `Decision.BlameIsRight` | engine/crates/synsema-capabilities/src/model.rs:1487-1537 | a refusal names a ceiling only for what was declared, and then a ceiling of the chain that does not cover it; it names a denial only if that denial matches |
| `Authority.BlamedInOrder` | engine/crates/synsema-capabilities/src/model.rs:1466-1537 | exactly what a refusal is blamed on, in terms of types and scopes: the first denial in the way; for what was declared the ceiling, then the first delegated ceiling in the way; an isolated folder; and of what the parent says only a ceiling is passed on |
| `Decision.GrantEnters` | engine/crates/synsema-capabilities/src/model.rs:1375-1430 | a grant enters exactly when the ceiling and every delegated ceiling cover it |
| `Decision.RefusedForTheLimit` | engine/crates/synsema-capabilities/src/model.rs:1161-1163 | what the program asked for and a limit refused is then refused for that limit, not as a missing grant |
| `CapabilitySets.CapabilitySet.Check` | engine/crates/synsema-capabilities/src/model.rs:1466-1605 | the recursion over parents decides what the specification says and changes nothing |
| `CapabilitySets.CapabilitySet.Declared` | engine/crates/synsema-capabilities/src/model.rs:1779-1785 | asked for or granted, here or in a parent |
| `CapabilitySets.CapabilitySet.Grant` | engine/crates/synsema-capabilities/src/model.rs:1375-1430 | the set after a grant of the program or of the runtime; its parents are left alone |
| `CapabilitySets.CapabilitySet.Deny` | engine/crates/synsema-capabilities/src/model.rs:1444-1446 | the denial joins the others in order |
| `CapabilitySets.CapabilitySet.PushDelegation` | engine/crates/synsema-capabilities/src/model.rs:1247-1249 | a delegated ceiling is stacked |
| `CapabilitySets.CapabilitySet.PopDelegation` | engine/crates/synsema-capabilities/src/model.rs:1252-1254 | the last one stacked is taken off |
| `CapabilitySets.CapabilitySet.LayersForChild` | engine/crates/synsema-capabilities/src/model.rs:1663-1682 | the caller's grants and its parents', its ceiling and its delegated ceilings, a sandbox block turned into a limit of the caller |
| `Narrowing.NarrowsIff` | engine/crates/synsema-capabilities/src/model.rs:1655-1682 | a transferable request the child accepts is accepted by the caller if and only if one of the caller's sets covers it with no denial, and no isolated folder in the way, up to there, given parents that share its limits |
| `Narrowing.Narrows` | engine/crates/synsema-capabilities/src/model.rs:1655-1682 | with no denials, every transferable request that is no path and the child accepts is accepted by the caller |
| `Narrowing.NarrowsAtAnyDepth` | engine/crates/synsema-capabilities/src/model.rs:1655-1682 | the same through any number of nested programs |
| `Authority.LayersAskTheSame` | engine/crates/synsema-capabilities/src/model.rs:1663-1682 | the layers of a caller ask exactly that its grants together, its ceiling and its delegated ceilings give the request |
| `Narrowing.DenialDoesNotTravel` | engine/crates/synsema-capabilities/src/model.rs:1662-1662 | a denial of the caller does not reach the child |
| `Narrowing.PathsOfTwoSetsJoin` | engine/crates/synsema-capabilities/src/model.rs:518-528 | two sets of the caller become one layer, and a path covered by one by name and by the other on disk is then open to the child and not to the caller |
| `Narrowing.AdmissionNarrowsIff` | engine/crates/synsema-capabilities/src/model.rs:838-858 | an address the child is admitted to the caller is admitted to, if and only if no denial of the caller's chain names it |
| `Authority.AdmittedExactly` | engine/crates/synsema-capabilities/src/model.rs:838-858 | a connection is admitted if and only if no `net` denial of the chain names the address and it is public, or some `net` grant of the chain, the requester's ceiling and every layer of every delegated ceiling name it |
| `Authority.AdmissionBlamedInOrder` | engine/crates/synsema-capabilities/src/model.rs:838-858 | what the refusal of a connection is blamed on: a `net` denial of the chain that names the address, before all else; then the ceiling, then a delegated one, and the missing grant last |
| `Authority.NoGrantNoPrivateAddress` | engine/crates/synsema-capabilities/src/model.rs:853-857 | with no grant no private address is admitted |
| `Narrowing.AdmissionNarrowsAtAnyDepth` | engine/crates/synsema-capabilities/src/model.rs:1626-1653 | the same through any number of nested programs with no denials |
| `Bus.HistoryHolds` | engine/crates/synsema-agents/src/bus.rs:129-170 | after any pushes and receives: the byte count is exact, the length is bounded, more bytes than allowed stand only in a single event, and every event offered is accounted for in order |
| `Bus.NothingIsMissing` | engine/crates/synsema-agents/src/bus.rs:129-149 | under drop-oldest the queue is a suffix of everything received, and received = delivered + dropped + queued |
| `Bus.LostOnlyInOverflow` | engine/crates/synsema-agents/src/bus.rs:150-162 | under the error policy nothing is dropped one by one, and received = delivered + queued + lost in an overflow |
| `Bus.ReadsThenError` | engine/crates/synsema-stdlib/src/ws.rs:2449-2470 | under the error policy a program reads what was published without a gap, and then at most one error, which names the events and bytes right after those read that it will never read |
| `Bus.NextIsRead` | engine/crates/synsema-stdlib/src/ws.rs:2449-2470 | the next receive reads the next event published, while none is missed; an overflow is told once nothing before it is left to read |
| `Bus.AllIsOffered` | engine/crates/synsema-agents/src/bus.rs:92-127 | until events are lost in an overflow, all that was published was offered to the queue |
| `Bus.NothingAfterError` | engine/crates/synsema-stdlib/src/ws.rs:2464-2469 | the error is the last thing the program reads, whatever is published and however often it asks |
| `Bus.ToDrop` | engine/crates/synsema-agents/src/bus.rs:140-149 | the fewest oldest events whose removal makes room |
| `Bus.LostOnlyWithoutRoom` | engine/crates/synsema-agents/src/bus.rs:129-165 | a push keeps everything queued exactly when there is room by count and by bytes, or nothing was queued and the oldest are dropped |
| `Bus.TextWeighsItsBytes` | engine/crates/synsema-agents/src/bus.rs:181-197 | a text weighs its UTF-8 bytes |
| `Bus.PartsWeighTogether` | engine/crates/synsema-agents/src/bus.rs:181-197 | lists and maps weigh eight bytes and the sum of their parts |
| `Bus.Subscriber.Push` | engine/crates/synsema-agents/src/bus.rs:129-170 | the queue after a push: that prefix dropped and the event behind, or the overflow |
| `Bus.Subscriber.MakeRoom` | engine/crates/synsema-agents/src/bus.rs:143-150 | the loop drops exactly the shortest prefix that makes room |
| `Bus.Subscriber.TryRecv` | engine/crates/synsema-agents/src/bus.rs:82-92 | the oldest event, else the error, else nothing; the byte count stays exact |
| `Bus.Subscriber.constructor` | engine/crates/synsema-agents/src/bus.rs:256-265 | an empty queue with its bounds clamped |
| `Bus.Bus.Subscribe` | engine/crates/synsema-agents/src/bus.rs:246-268 | up to the limit, an empty subscription under an id never used before |
| `Bus.Bus.Publish` | engine/crates/synsema-agents/src/bus.rs:276-292 | every subscriber that matches gets the whole event once, the others are left alone, and the number is returned |
| `Calendar.NumberOfItsDate` | engine/crates/synsema-cli/src/build.rs:781-792 | for every integer day number the conversion yields a valid date whose day count, by month lengths and the leap rule, is that number |
| `Calendar.DateOfItsNumber` | engine/crates/synsema-cli/src/build.rs:781-792 | the date of the day count of a valid date is that date |
| `Calendar.ConsecutiveDays` | engine/crates/synsema-capabilities/src/model.rs:1065-1077 | day 0 is 1970-01-01 and consecutive numbers are consecutive dates |
| `Calendar.StampOfInstant` | engine/crates/synsema-capabilities/src/model.rs:1063-1083 | date and time of day are in range and rebuild the milliseconds |
| `Calendar.InstantOfStamp` | engine/crates/synsema-capabilities/src/model.rs:1063-1083 | every valid stamp is the stamp of its instant |
| `Calendar.BuildStampOfSecond` | engine/crates/synsema-cli/src/build.rs:775-793 | the stamp of a build is a valid one and stands for its second |
| `Install.OverwritesOnlyPublished` | engine/crates/synsema-cli/src/synfide.rs:175-197 | an install, complete or stopped by a write that fails and tears its target, online or not, overwrites only what was published for that path, except what stands beside a file it keeps |
| `Install.RecordsStayPublished` | engine/crates/synsema-cli/src/synfide.rs:291-304 | over any sequence of installs and edits every recorded hash is a published one |
| `Install.UserWorkSurvives` | engine/crates/synsema-cli/src/synfide.rs:258-374 | content no release published stays where it is through any sequence of installs until the user changes it, at every path that is not the `.new` of a released file |
| `Install.LosesNothingIff` | engine/crates/synsema-cli/src/synfide.rs:330-361 | a complete install loses nothing unpublished if and only if what stands beside the files it keeps is absent, published or the same |
| `Install.NotesBesideAreLost` | engine/crates/synsema-cli/src/synfide.rs:330-334 | an upgrade that keeps an edited file overwrites the user's own `.new` beside it |
| `Install.ReplacesOrKeeps` | engine/crates/synsema-cli/src/synfide.rs:175-197 | in a complete install every file is replaced and recorded exactly when it is missing, untouched since recorded, already the release's or of some release; otherwise it stays with its record and the release's version stands beside it |
| `Install.AsRecordedIsLeft` | engine/crates/synsema-cli/src/synfide.rs:234-250 | nothing is done when that version is installed and every recorded file is on disk as recorded |
| `Install.ElseEveryFileIsLaid` | engine/crates/synsema-cli/src/synfide.rs:234-361 | with another version, no record, or any recorded file missing or changed, every file of the release is replaced and recorded or kept with the release's beside it |
| `Install.MissingIsRestored` | engine/crates/synsema-cli/src/synfide.rs:228-254 | a recorded file of the release that is missing is there again, after an install of the installed version too |
| `Install.NoneIsMissing` | engine/crates/synsema-cli/src/synfide.rs:228-374 | after a complete install no recorded file is missing |
| `Install.OfflineIsEnough` | engine/crates/synsema-cli/src/synfide.rs:262-280 | what the releases would say makes no difference to a first installation, or when every file on disk is as recorded or as released |
| `Install.PublishedIsReplaced` | engine/crates/synsema-cli/src/synfide.rs:175-197 | in an upgrade a file that some release published is replaced, recorded or not |
| `Install.CurrentSurvives` | engine/crates/synsema-cli/src/synfide.rs:308-329 | a file outside the framework's own folder that is as released is not written, so that it outlives any install of that release and any write that fails |
| `Install.InstallTwice` | engine/crates/synsema-cli/src/synfide.rs:234-250 | after a complete install that kept nothing, installing the same release again changes nothing |
| `Install.FinishedIff` | engine/crates/synsema-cli/src/synfide.rs:223-374 | an install in which any write failed, leaving its target as it was or torn, and that is run again, ends as it would have ended had none failed, if and only if what a torn file holds is the release's, what was recorded or what some release published, and no kept file was in a torn record |
| `Install.TornFileIsKept` | engine/crates/synsema-cli/src/synfide.rs:304-372 | a file torn while it was replaced is kept as the user's by the next install, and the release's put beside it |
| `Install.Installer.Install` | engine/crates/synsema-cli/src/synfide.rs:223-374 | the loop over the files leaves disk, record and version as specified, for every write that may fail (a file, the version, or the record after the version) and whatever it leaves at its target |
| `Sampler.Uniform` | engine/crates/synsema-capabilities/src/secure.rs:2398-2410 | for every range in 64 bits each integer has the same number of accepted draws, zone/span, and nothing else is possible |
| `Sampler.MoreThanHalf` | engine/crates/synsema-capabilities/src/secure.rs:2398-2399 | more than half of all draws are accepted |
| `Sampler.RandomInt` | engine/crates/synsema-capabilities/src/secure.rs:2398-2409 | the first accepted draw decides, and the result is in the range |
| `Readers.ReadCapped` | engine/crates/synsema-capabilities/src/secure.rs:921-943 | however the stream is cut, the first `cap` bytes, and truncated exactly if there were more |
| `Readers.CuttingDoesNotMatter` | engine/crates/synsema-capabilities/src/secure.rs:917-920 | cutting a read in two changes nothing |
| `Readers.ReadLinesRange` | engine/crates/synsema-capabilities/src/secure.rs:1012-1035 | for every text, offset and limit the streaming reader gives what the in-memory split, skip and take give |
| `Readers.SplitJoins` | engine/crates/synsema-capabilities/src/secure.rs:718-719 | splitting a text into lines loses nothing |
| `Readers.RangesMeet` | engine/crates/synsema-capabilities/src/secure.rs:717-723 | two ranges that follow each other are the whole text |
| `Readers.LinesAreLines` | engine/crates/synsema-capabilities/src/secure.rs:717-723 | every line is something without a newline but its own, and only the last may lack it |
| `Readers.LineByNumber` | engine/crates/synsema-capabilities/src/secure.rs:717-723 | lines are counted from one, and line zero is the first |

## Left out

- Threads, condition variables, wakers, timeouts and clocks: each locked section is one atomic step, times are inputs, and a run is an opaque identity.
- The blackboard's `events`, watchers, `history`, `version` and the order of the map: observability, and the source says that history and version are not coherent after an undo.
- Blackboard.Blackboard.Rollback: the run's keys are a sequence without repetitions; the order in which the source reinserts deleted keys into its ordered map is not part of this model.
- Swarm.Swarm.Take: the consuming step only; when a waiter gives up (timeout, no live producer) is not part of this model.
- PeAppend.PeFile.AppendRsrcSection: states what happens for images whose PE header follows the DOS header, whose third data directory lies before the section table, whose free header slot lies in the file, whose section count does not wrap, and for which no 32-bit sum overflows; the source does not check these and would panic, wrap or overwrite other fields. A leaf with no bytes is not covered.
- PeIcon.AddIcon: the same conditions on the image, images that hold bytes, and old resources none of whose leaves is empty.
- PeAppend.SerializeTree: trees whose ids, names, counts and offsets fit the format's fields; an id of 2^31 or more would be written as a name.
- The section names kept for diagnosis, the subsystem switch, and reading `.ico` and `.icns` files: single-field edits and formats of their own, on which nothing above depends.
- Lending.LendingIsSafe: which paths touch a folder is one relation for the whole run; a folder that was replaced is one that no longer is what its name leads to, and the moment of replacing is no step.
- Handshake.HandshakeIsSafeIff: one file system for the whole run, in which each folder may be as it was lent or not.
- Handshake.GenuineIsSafeIff: folders other than the root.
- Touching.WaitsIff: a file is looked through like a folder, as the walk does; paths are absolute in the source, and one that is not is resolved here from nowhere.
- Holding while `op_hold` is not enabled: nothing is published before the first grant of `exec`, without which no child runs.
- Lending.LentUntilGivenBack: counts by name, as the source does.
- Waiting for a child's process group before giving its folders back: a loan may stay running for ever.
- Walk.WalkPath: one file system for the whole walk, and no Windows prefix components.
- The place fixed by an open handle (`fixed_place_crossing`): a walk compared with a resolution of the system's own.
- Globs, hosts, CIDR ranges, secret bindings, where a path leads on disk, and the weight of a scope's text: arbitrary predicates and functions of the text; `covers` around them is as in the source.
- The audit log and the texts of refusals.
- Entering and leaving the scope of a trusted module: it swaps the whole set out and back.
- Narrowing.Narrows: requests for paths are excluded, because two of the caller's sets may cover one together in the child; `NarrowsIff` says when they are accepted.
- Bus.ReadsThenError: the program's handle is a flag beside the queue; the table of handles and waking it are not part of this model.
- Holds and the startup turn as methods of the shared object: they are steps of `Lending`, one assignment each.
- Bus.Bus.Publish: topic patterns are an arbitrary predicate, and the lock between choosing the subscribers and pushing to them is one step.
- Calendar.StampOfInstant: starts from whole milliseconds; the rounding of the clock's floating-point seconds and the printing of the digits are not part of this model.
- Calendar.BuildStampOfSecond: the source writes the conversion out twice with the same operations; here both stamps use one.
- Install.FinishedIff: releases that name each path once, and a second run that finds work to do and asks the releases as the first did.
- Install.Installer.Install: a content stands for its hash; downloads, checking the release's hashes, messages and the two bookkeeping files as files (a project's own files at those places) are not part of this model.
- Sampler.RandomInt: draws are arbitrary 64-bit values, and the loop ends with the draws it is given; the native generator is library code.
- Readers.ReadLinesRange: on bytes; the lossy decoding that follows and read errors are not part of this model.
- Memory, progress, resource locks, intents and the embedding: each keeps its own state, which none of the above reads.
