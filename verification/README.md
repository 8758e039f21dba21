# Verified models of the switch test framework

The framework drives a live switch: it sends configuration commands, loops ports back on
themselves, slips operations into queues that other processes share, and speaks just enough BGP to
be a neighbour.  This project models the parts of it that hold state over time, each against a small
explicit model of what it talks to, and proves what the framework promises about them.

`dafny verify dfyconfig.toml` checks everything.

| module | program | against |
|---|---|---|
| ConfigGuard | the two-pass undo stack | a device that accepts an undo once its prerequisites have run |
| DlbQueues | injection into the queues of orchagent and syncd, and the reap | both queues, with steps of both processes between any two commands |
| DlbObjects | the injected objects and their clean-up | syncd, which an unknown VID ends |
| LtParser, Text | the parser of chip tables | printing |
| Chip, Readback, Hairpin, Loopback | loop-free loopback topologies and the loopback manager | a chip: PVIDs, members, forwarding entries, looped and discarding ports, frames that re-enter |
| Sentinel | the contamination log and its analyser | the sequence of key sets after each test |
| BgpWire, BgpStream, BgpNeighbour, BgpPeer | the BGP speaker | a byte stream cut anywhere, and a neighbour that follows the standards |
| Gcu | JSON patches | RFC 6901 and RFC 6902 on a document |
| PortRange | printing and reading port ranges | each other |
| Ladder | moving a port into a test VLAN on images that refuse deletions | a port of such an image |
| Worker | the remapping of resources per worker | arithmetic |
| Arithmetic, Wrappers | powers of two, division, optional values | |

Objects whose methods update their fields are classes, and each method is proved against a function
on values; the theorems are about those functions.  Whatever the environment decides (when a step of
another process happens, whether a command lands before the program looks, how a stream is cut) is a
parameter, and the theorems are for all of its values.

## Where the code departs from its documentation

The models follow the code.  Each of these has a theorem that says exactly when the documented
promise holds, or a concrete input on which it does not.

- `ConfigGuard`: one retry heals one inversion per chain, and none below an undo whose refusal is
  judged a success (framework/config_guard.py:59-71).
- `_push` ignores what the reap reports, so a late response stays in the queue
  (framework/dlb.py:217), and a quiet queue at the last poll is not a quiet queue at the push.
- The VID comment places the type in bits 40 to 47 (framework/dlb.py:56); the constants have it in
  bits 48 to 55.  The note on the index range 0xc0xx (framework/dlb.py:20-21) does not hold either:
  the first instance already starts at 0xc100 (DlbObjects.CommentedRangeExactly), and an index of
  0x100 is in the range of the next one (DlbObjects.IndexTooLarge).
- `remove` asks for the RID before it waits for the queues, and forgets an object it did not remove
  (framework/dlb.py:302-309).
- The tear-down of the hairpin undoes only the last address of each capture aid
  (topo/hairpin.py:100, topo/hairpin.py:119); an entry it forgets in VLAN A keeps that VLAN and the far
  port in it (Hairpin.SessionLeaves).
- The flood-safe comment says that isolation VLANs must differ (framework/loopback.py:324).  A shared
  one whose looped members classify into it themselves ever drains if and only if it has at most one
  of them or lets no isolated port in (Chip.SharedIsolationDrainsExactly); without members, as `vlan
  create` leaves it, it always does (Chip.MemberlessSharedDrains).
- Both read-backs of a PVID look for the wanted number behind "default VLAN is" and so accept every
  number that starts with it (topo/hairpin.py:86-90, framework/loopback.py:145).  With VLAN 100 wanted
  and the default VLAN 1000 written back, `arm` raises nothing and the port is in the default VLAN
  (Hairpin.HundredReadsThousand).  Success can be relied on if and only if the product writes back no
  VLAN whose decimal properly starts with the wanted one; whatever it writes, that is so exactly when
  ten times the wanted one exceeds 4094 (Readback.BelievableExactly, Readback.GuardExactly).
- `enable_flood_safe` records the mode mac whatever the mode is (framework/loopback.py:341,
  Loopback.FloodSafeRecordsMode).
- `disable_flood_safe`, `cleanup` and `force_clear_all` treat an entry by discard as one by VLAN
  (framework/loopback.py:391-451).  The first two lift the discard exactly when the loopback of the
  port is on record with a discard of its own, `restore_pvid` lifts it always, and the full clear
  never; nor does anything after it that asks for no discard (Loopback.DiscardLiftedExactly,
  Loopback.ForceClearForgetsDiscards).
- The announcements after the handshake take no lock (servers/bgp_speaker.py:172-177), and `withdraw`
  compares the spelling of a prefix, not its meaning (servers/bgp_speaker.py:202).
- `remove_entry` takes the one key of a table for the requested one (framework/gcu.py:92-93).
- `remap_ip4` leaves the octet range for some addresses from worker 3 on
  (framework/worker.py:78-80).  Worker 1's VLANs 430 above worker 2's meet them
  (Worker.NeighboursMeet), and the default VLAN moves like the others only while it is a low one
  (Worker.DefaultVlanMoves).
- The ladder's deletion relies on the pvid command landing at once (framework/cli.py:187-188), and
  takes the port out of its other test VLANs too (Ladder.DelDropsOtherVlans).

## Model

| member | source | states |
|---|---|---|
| ConfigGuard.RollbackHealsExactly | framework/config_guard.py:59-96 | For every undo stack and every dependency relation, cyclic ones and misjudged verdicts included: an undo is in effect after pass and retry if and only if every prerequisite chain from it ends among commands, has at most one edge against the rollback order, and has none at or below an undo whose refusal is judged a success. |
| ConfigGuard.OnePassHealsExactly | framework/config_guard.py:83-91 | What the retry is for: after the first pass alone an undo is in effect if and only if no chain from it has any edge against the order. |
| ConfigGuard.AttemptsOfEach | framework/config_guard.py:84-96 | Each command is attempted once, and a second time exactly when its first verdict was a failure; entries without a command never. |
| ConfigGuard.TwoInversionsFail | framework/config_guard.py:59-65 | The concrete three-entry stack on which two passes are not enough. |
| ConfigGuard.SweepTurn | framework/config_guard.py:84-95 | What one pass does to each entry: its prerequisites are judged at its turn, and the judgement alone decides whether it is listed as failed. |
| ConfigGuard.ConfigGuard.Exit | framework/config_guard.py:53-98 | The two loops compute exactly the first pass and the retry above, and leave the stack empty. |
| ConfigGuard.ConfigGuard.DeferUndo | framework/config_guard.py:32-36 | Registration appends to the stack and nothing else. |
| DlbQueues.InjectionsAreTransparent | framework/dlb.py:173-235 | For every interleaving of orchagent, syncd and any number of injections that are refused or keep the discipline: both queues and everything orchagent has read equal those of the same run with the injections erased. |
| DlbQueues.OrchagentNeverMisled | framework/dlb.py:26-34 | Over every such run orchagent reads only whole records answering its own operations, and outside a reap the response queue holds a multiple of three elements. |
| DlbQueues.ReapsOwnRecordExactly | framework/dlb.py:196-218 | When orchagent does not read during the reap, the three elements reaped are the injected response if and only if both queues were empty at the push; otherwise they are the oldest three of the stream. |
| DlbQueues.ReadsDuringReapAreForeign | framework/dlb.py:204-207 | After a push into empty queues, the reads orchagent makes before the reap is over are all clean if and only if there are none. |
| DlbQueues.PushErased | framework/dlb.py:193-218 | One disciplined injection leaves the queues as the other processes alone would have left them. |
| DlbQueues.PushForeignExactly | framework/dlb.py:193-235 | The discipline is needed: an injection that was not refused and not disturbed leaves nothing of the framework behind if and only if its response was reaped and both queues were empty at the push. |
| DlbQueues.TimeoutLeavesRecord | framework/dlb.py:217-235 | A reap that gives up leaves the framework's own record as the next thing anybody takes, and the caller ignores that. |
| DlbQueues.LeftoverBlocksInjections | framework/dlb.py:172-235 | From then on, over every run of the other processes and further injections: either every injection is refused and the leftover record stays in front, or orchagent has read it, as the first thing it read. |
| DlbQueues.QuietGuards | framework/dlb.py:172-191 | A successful quiet phase saw the inbound queue empty and then the response queue empty; if orchagent pushes nothing after that, both are empty at the push. |
| DlbQueues.QuietIsNotEnough | framework/dlb.py:172-218 | The concrete run in which orchagent pushes between the last poll and the injection and its response is the one reaped. |
| DlbQueues.QuietExactly | framework/dlb.py:172-191 | The quiet phase succeeds if and only if some three polls in a row each saw the inbound queue empty and then the response queue, and it makes no poll after the first such three. |
| DlbQueues.ReapExactly | framework/dlb.py:220-235 | The reap takes its three elements at the first look that finds three, and gives up if and only if no look does. |
| DlbQueues.PushExactly | framework/dlb.py:193-218 | An injection is refused if and only if no three polls in a row found both queues empty, and otherwise reaped if and only if some look finds three elements. |
| DlbQueues.Dlb.PushOp | framework/dlb.py:193-218 | The method refines the injection of the model, for any schedule of the other processes, and reports what became of it. |
| DlbQueues.Dlb.Quiesce | framework/dlb.py:172-191 | The polling loop computes the quiet phase of QuietExactly, short-circuit reads included. |
| DlbQueues.Dlb.ReapResponse | framework/dlb.py:220-235 | The waiting loop and the three pops compute the reap of ReapExactly. |
| DlbObjects.VidsCollideExactly | framework/dlb.py:56-63 | For indices below 0x100: two group VIDs, or two member VIDs, are equal if and only if instance and index are; a group VID equals a member VID if and only if the indices are equal and the instances are 0x1A0000000001 apart. |
| DlbObjects.TypesKept | framework/dlb.py:56-58 | The VIDs carry SAI types 5 and 31 in bits 48 to 55 as long as the instances fit below bit 48. |
| DlbObjects.CommentedRangeExactly | framework/dlb.py:20-21 | The commented index range and type bits: a group lies in 0xc0xx exactly for an instance 0, which there is not, a member never; bits 40 to 47 are empty. |
| DlbObjects.RunHealthy | framework/dlb.py:260-318 | Over every disciplined sequence of create, add, remove, cleanup and foreign changes: syncd lives, everything recorded has a RID, and every member is recorded after its group. |
| DlbObjects.CreatesExactly | framework/dlb.py:260-300 | In such a sequence an injection that syncd performs creates its object, with the group and next hop it refers to, and records it; one that is refused or never made changes nothing of the test. |
| DlbObjects.AddMemberSafeExactly | framework/dlb.py:279-300 | An injected member ends syncd exactly when its next hop passed the check and then the next hop or the group is unknown. |
| DlbObjects.RemoveSafeExactly | framework/dlb.py:302-309 | A removal is safe exactly when nothing still unhandled at the RID check takes the object away before the removal is handled. |
| DlbObjects.RepeatedRemovalKills | framework/dlb.py:302-309 | Repeating a removal that landed late ends syncd. |
| DlbObjects.RemoveTrackedExactly | framework/dlb.py:302-309 | The list of created objects stays complete exactly when the removal removed its object; a refused or in-use object is forgotten all the same. |
| DlbObjects.StepTrackedExactly | framework/dlb.py:260-318 | Every disciplined call keeps the list of created objects complete exactly when it forgets none that lives on. |
| DlbObjects.TestLeavesNoneExactly | framework/dlb.py:157-318 | A whole test, from an instance with no VID in use: any disciplined run that forgets nothing and then cleanup leaves syncd alive, and none of its objects if and only if every removal is performed. |
| DlbObjects.CleanupLeavesNoneExactly | framework/dlb.py:311-318 | Cleanup leaves none of the instance's objects if and only if every removal is performed; members go before their groups, so none is ever refused as in use; foreign objects are not touched. |
| DlbObjects.ForgottenGroupLeaks | framework/dlb.py:302-318 | Removing a group that still has a member leaves it behind for good. |
| DlbObjects.Dlb.CreateGroup | framework/dlb.py:260-268 | Creates under the computed VID and records it exactly when a RID appeared. |
| DlbObjects.Dlb.AddMember | framework/dlb.py:279-300 | Refuses a vanished next hop, otherwise injects, and records exactly when a RID appeared. |
| DlbObjects.Dlb.Remove | framework/dlb.py:302-309 | Injects only for a known VID, forgets every record of it, and reports whether it is gone. |
| DlbObjects.Dlb.Cleanup | framework/dlb.py:311-318 | The loop over the reversed list computes the sweep of the theorems. |
| LtParser.EntriesExact | framework/dlb.py:95-131 | For every field stream: the parsed entries concatenate to the stream, none repeats a key, and each later one starts with a key of its predecessor. |
| LtParser.EntriesInvertExactly | framework/dlb.py:106-125 | Parsing inverts printing a list of entries if and only if the list has those properties. |
| LtParser.ParseEntries | framework/dlb.py:109-131 | The loop returns those entries, each with, for exactly the indexed names, the list of its values in order; tokens that are no fields are skipped. |
| LtParser.FieldsConcat | framework/dlb.py:114-118 | The tokens that match are taken one after the other, in order. |
| LtParser.ListedExactly | framework/dlb.py:127-128 | The list under NAME[] holds exactly the elements of the array, in the order of printing: the value of each is at the place that counts the elements before it. |
| LtParser.MatchedExactly | framework/dlb.py:119-123 | A token is keyed by its index exactly when it has one that is not empty. |
| LtParser.FieldAtExact | framework/dlb.py:134-151 | However an array is cut into runs of equal values, and whatever fields surround it that do not themselves answer for the index, reading it gives the original element, and past the end nothing. |
| LtParser.FieldInFrontExactly | framework/dlb.py:138-151 | One more field in front of the array is read instead exactly when its key is the element's own, or the element was printed within a longer run or not at all and the key is the name, or a run over the index. |
| LtParser.FieldBehindExactly | framework/dlb.py:138-151 | One more field behind it: the same, but a run there only past the end, and nothing for an element printed by itself. |
| LtParser.MisreadExactly | framework/dlb.py:138-151 | So a field with a different value spoils the reading exactly for those keys and indices. |
| LtParser.SuffixIsSilent | framework/dlb.py:143-151 | A neighbour such as NAME_SIZE, with a suffix that is no number and has no dash, is silent at every index. |
| LtParser.UnderscoreShadows | framework/dlb.py:138-140 | A neighbour NAME_i without an index, in front or behind, answers for an element i printed within a longer run. |
| Chip.BareLoopsMultiply | framework/loopback.py:318-320 | k bare looped ports of one VLAN hold exactly (k-1)^r frames after r rounds. |
| Chip.FloodReachesEachOnce | framework/loopback.py:321-325 | With every other looped port isolated, one flooded frame leaves by each other member exactly once, by nothing else, and is gone after two rounds. |
| Chip.IsolationDrainsExactly | framework/loopback.py:318-325 | What isolation has to achieve: a frame flooded from the injection port is gone after two rounds, and stays so, if and only if no looped member it reaches sends it back in. |
| Chip.SharedIsolationDrainsExactly | framework/loopback.py:324-324 | Several ports isolated in one VLAN whose looped members classify into it: it ever drains if and only if there is at most one such member or none of the isolated ports is let in; and then within three rounds. |
| Chip.SharedIsolationTwoRoundsExactly | framework/loopback.py:324-324 | For any shared isolation VLAN: drained after two rounds if and only if no isolated port is let in and finds another looped member. |
| Chip.DrainsExactly | framework/loopback.py:318-325 | For every chip, port and destination: a frame is ever gone if and only if it is gone one round after as many as there are looped ports; otherwise it is there for ever. |
| Chip.BareLoopsDrainExactly | framework/loopback.py:318-320 | Bare looped ports of one VLAN ever drain if and only if there is one. |
| Chip.MemberlessSharedDrains | framework/loopback.py:337-339 | A shared isolation VLAN without members drains. |
| Chip.MemberedSharedDrainsExactly | framework/loopback.py:324-324 | With the isolated ports as its members it drains if and only if there is at most one. |
| Chip.SharedIsolationMultiplies | framework/loopback.py:324-324 | And k such ports hold exactly k(k-1)^r copies after r+1 rounds. |
| Hairpin.HairpinDrainsExactly | topo/hairpin.py:8-14 | On the armed hairpin a frame entering on either port is gone after two passes if and only if the forwarding entries do not send it round; otherwise it never drains. |
| Hairpin.HairpinEverDrainsExactly | topo/hairpin.py:8-14 | The same without counting rounds. |
| Hairpin.HairpinDeliversOnce | topo/hairpin.py:3-6 | Such a frame from the near port leaves the far port exactly once if VLAN A forwards it there, and never otherwise. |
| Hairpin.PuntedFrameReachesCpu | topo/hairpin.py:110-120 | A frame named by the capture entry reaches the CPU exactly once after leaving the far port. |
| Hairpin.LearningIsSafe | topo/hairpin.py:8-14 | An entry learned from a frame on either port keeps the hairpin armed and closes no circle. |
| Hairpin.SetupIsUp | topo/hairpin.py:42-69 | Whatever the two ports classified into before, set-up leaves exactly both in VLAN A, an empty VLAN B with its address, both looped, and both PVIDs the default. |
| Hairpin.SetupResetsPvids | topo/hairpin.py:36-44 | On every switch and plan: after set-up the two ports classify into the default VLAN, and the PVID of no other port is touched. |
| Hairpin.SetupAndArm | topo/hairpin.py:42-93 | Set-up and arming arm the hairpin, and any sequence of capture aids leaves it so. |
| Hairpin.SessionDrains | topo/hairpin.py:8-20 | From set-up on: after any uses that leave the PVIDs aimed, and learning from any frames on the two ports, every multiset of frames on them is gone after two passes, whatever the destinations. |
| Hairpin.SessionDelivers | topo/hairpin.py:3-6 | There every frame from the near port leaves the far port exactly once, and reaches the CPU exactly once if its address is captured. |
| Hairpin.ArmedSessionDrains | topo/hairpin.py:42-120 | Both for set-up, arming and any sequence of capture aids. |
| Hairpin.UndoRestores | topo/hairpin.py:45-60 | Replaying the undo stack backwards over an intact set-up restores the switch. |
| Hairpin.SessionRestoresExactly | topo/hairpin.py:122-137 | Whatever happens between set-up and tear-down, the switch is restored, but for PVIDs that were not the default before, if and only if each capture aid was used for at most one address, and then both VLANs are deleted empty; default PVIDs and loopback come back always. |
| Hairpin.SessionLeaves | topo/hairpin.py:122-137 | What is left in every case: default PVIDs, the forgotten entries, and with one of them in VLAN A also that VLAN with the far port in it; whatever is deleted is empty. |
| Hairpin.Hairpin.Setup | topo/hairpin.py:42-69 | The method reaches the set-up state of SetupIsUp, pre-clean included, and registers its undo stack. |
| Readback.ReadsAsStep | topo/hairpin.py:86-90 | What the text search accepts, in numbers: the wanted VLAN, or one that becomes it by dropping digits from the right. |
| Readback.BelievableExactly | topo/hairpin.py:84-93 | A read-back that holds means the wanted VLAN, for everything the product writes back from a set of VLANs, if and only if none of them has a decimal that properly starts with the wanted one. |
| Readback.GuardExactly | topo/hairpin.py:84-93 | When it may write any VLAN, that is so exactly when ten times the wanted one exceeds 4094, or it is 0. |
| Readback.SettlesExactly | topo/hairpin.py:87-93 | The tries succeed exactly when one is left alone or read as the wanted VLAN. |
| Hairpin.ArmAimsExactly | topo/hairpin.py:71-93 | Arming without an exception aims the hairpin exactly when both VLANs that were read are the wanted ones. |
| Hairpin.ArmBelievableExactly | topo/hairpin.py:71-93 | It can be relied on, for all that is written back from a set of VLANs, if and only if none of them is mistaken for A or for B. |
| Hairpin.HundredReadsThousand | topo/hairpin.py:86-90 | The input on which it goes wrong: 100 wanted, 1000 written back; nothing is raised, and what enters floods the default VLAN. |
| Hairpin.Hairpin.WritePvid | topo/hairpin.py:84-93 | The read-back loop succeeds exactly when some attempt is left alone or read as the wanted VLAN, and the port is then where that attempt left it, otherwise where the last one did. |
| Hairpin.Hairpin.Arm | topo/hairpin.py:71-82 | Raises exactly when one of the two read-backs never holds; otherwise both ports are where theirs held. |
| Hairpin.Hairpin.FdbToOut | topo/hairpin.py:95-108 | Adds the entry and remembers its address, replacing the one before. |
| Hairpin.Hairpin.PuntBToCpu | topo/hairpin.py:110-120 | Adds members and entry on VLAN B and remembers the address, replacing the one before. |
| Hairpin.Hairpin.Teardown | topo/hairpin.py:122-137 | The method computes the tear-down of the theorem and leaves the undo stack empty. |
| Loopback.StepTracked | framework/loopback.py:106-451 | Each operation keeps the table of loopbacks equal to the ports looped in the chip, except exactly a full clear whose range misses a tracked port that is not held. |
| Loopback.RunTracked | framework/loopback.py:106-451 | So over every sequence of operations, well nested or not. |
| Loopback.IsolationRecordsHome | framework/loopback.py:331-343 | An isolation records the right VLAN to return to if and only if the PVID could be read, or is the default, and the port is not in an isolation VLAN already. |
| Loopback.StepHome | framework/loopback.py:117-401 | Over a legal operation the PVIDs and VLANs that would be there without isolation change only by what the operation itself intends. |
| Loopback.RunHome | framework/loopback.py:117-401 | The same over every legal run. |
| Loopback.ForceClearRestores | framework/loopback.py:415-451 | A full clear after a legal run: every isolated port is back in its VLAN, no isolation VLAN is left, exactly the held ports are looped if and only if the range reaches the others, and the reported ports are the tracked ones that are not held. |
| Loopback.DiscardLiftedExactly | framework/loopback.py:377-443 | An isolation by discard is lifted by disable_flood_safe and cleanup if and only if the loopback is on record with a discard of its own, by restore_pvid always, by a full clear never. |
| Loopback.StepDiscards | framework/loopback.py:242-451 | For every operation, exactly which discards it lifts and which it sets. |
| Loopback.ForceClearForgetsDiscards | framework/loopback.py:427-443 | A full clear lifts no discard, and over every later run of operations that ask for none, tear-downs of all kinds included, the discards stay as they were before it. |
| Loopback.TestVlanReturnsPorts | framework/loopback.py:150-217 | Whatever else is called between set-up and drop of a test VLAN: dropping it puts every port it was set up for into the VLAN given to return to, leaves the other ports where they are, and removes the VLAN. |
| Loopback.TestVlanKeepsOthers | framework/loopback.py:117-223 | And over every legal run in between, isolations included, every other port is at home where it was before the set-up. |
| Loopback.GivesUpExactly | framework/loopback.py:141-149 | The tries for one port are given up if and only if ten writes in a row were overwritten by VLANs that do not read as the wanted one. |
| Loopback.StepModes | framework/loopback.py:237-452 | The loopback mode of every port after every operation: what it switches off, what it switches on, and in which mode. |
| Loopback.StepNotes | framework/loopback.py:237-452 | And what is on record for every port after every operation, with its mode and whether a discard belongs to it. |
| Loopback.ForceClearReopensHeld | framework/loopback.py:106-115 | After any run, a full clear has a port looped and tracked in the mode of its last hold if no release followed; otherwise it is not tracked, and not looped if the clear reaches it. |
| Loopback.TouchedExactly | framework/loopback.py:104-104 | The mark to wait for is set exactly when some loopback or test VLAN was set up. |
| Loopback.ScopedIsFloodSafe | framework/loopback.py:315-345 | Whenever every other looped port of the test VLAN is isolated on record, the chip meets the condition of the flood theorem. |
| Loopback.FloodTestTerminates | framework/loopback.py:117-153 | From a chip with no loops: test VLAN, one injection port, any number of ports isolated through vacant VLANs, shared ones or not, and any PVIDs but the injection port's overwritten; one broadcast leaves by every other port of the VLAN once, and nothing is in flight two rounds later. |
| Loopback.LoopbackManager.HoldPort | framework/loopback.py:106-111 | Marks the port as held in its mode. |
| Loopback.LoopbackManager.ReleasePort | framework/loopback.py:113-115 | Forgets the mark and touches nothing else. |
| Loopback.LoopbackManager.EnablePort | framework/loopback.py:242-259 | The method takes the model's step. |
| Loopback.LoopbackManager.DisablePort | framework/loopback.py:306-313 | The method takes the model's step: a discard is lifted exactly when it is on record. |
| Loopback.LoopbackManager.EnableFloodSafe | framework/loopback.py:315-345 | The method takes the model's step. |
| Loopback.LoopbackManager.IsolatePvid | framework/loopback.py:347-375 | The method takes the model's step, on both kinds of image. |
| Loopback.LoopbackManager.RestorePvid | framework/loopback.py:377-389 | The method takes the model's step, for both kinds of entry. |
| Loopback.LoopbackManager.DisableFloodSafe | framework/loopback.py:391-401 | The method takes the model's step; an entry by discard is dropped without a command of its own. |
| Loopback.LoopbackManager.HoldPvid | framework/loopback.py:142-149 | Ten tries with the same text read-back: success, and the VLAN the port ends in, exactly as the tries go. |
| Loopback.LoopbackManager.UseTestVlan | framework/loopback.py:117-153 | The loop moves every port to the test VLAN, except those whose tries end elsewhere, misread ones included, and records what TestVlanReturnsPorts returns. |
| Loopback.LoopbackManager.DropTestVlan | framework/loopback.py:177-223 | The loop moves the recorded ports back and destroys the VLAN. |
| Loopback.LoopbackManager.Cleanup | framework/loopback.py:403-413 | The two loops, in any order of the ports, end in the state of the model. |
| Loopback.LoopbackManager.ForceClearAll | framework/loopback.py:415-451 | The loops, in any order of the ports, end in the state of the model and return the ports it says. |
| Sentinel.LeakReportExact | tools/analyze_sentinel.py:49-65 | For every session and its log: a key is a TRUE-LEAK if and only if it is present at the end and has flipped; so every key present at the end and not at the start is; it is blamed on the test at its last appearance. |
| Sentinel.LogConservation | tools/analyze_sentinel.py:49-65 | Appearances are benign rows, cross-module rows and true leaks added up; disappearances are benign and cross rows. |
| Sentinel.BaselineRemovalsExact | tools/analyze_sentinel.py:58-60 | A key is reported as a removed baseline key exactly once if it was in the baseline and has flipped, and never otherwise. |
| Sentinel.RowsExact | tools/analyze_sentinel.py:53-64 | A row is benign or crossing exactly as the module of the last creator and of the remover say, for every disappearance of the session. |
| Sentinel.RowsInOrder | tools/analyze_sentinel.py:51-64 | Rows and storms come in the order of the log, and within one record in the order of its removals. |
| Sentinel.ReplayReachesNow | framework/sentinel.py:91-119 | Replaying the log over the keys of the start gives the keys of the end; quiet tests and heal records change nothing. |
| Sentinel.RecordedExactly | framework/sentinel.py:91-119 | From the snapshots alone: a test adds one record if and only if the keys differ from those after the previous test, a size is more than four above the baseline, or a watched key has another content than after the previous test; the record names those keys with both contents. |
| Sentinel.StormsExact | tools/analyze_sentinel.py:46-47 | The storms reported are those of the session, in order: what the analyser looks for is never missing from the log. |
| Sentinel.CreatorIsLastAppearance | tools/analyze_sentinel.py:54-57 | The creator on record is the test at the last appearance. |
| Sentinel.ModOfTest | tools/analyze_sentinel.py:22-23 | The module of a test id is its file. |
| Sentinel.Sentinel.CaptureBaseline | framework/sentinel.py:73-88 | Starts the session and a fresh log. |
| Sentinel.Sentinel.CheckAfterTest | framework/sentinel.py:91-119 | Keeps the log a log of the session, one record if and only if there is something to record as in RecordedExactly, and rolls the baseline forward in every case. |
| Sentinel.Sentinel.RecordHeal | framework/sentinel.py:122-133 | Appends one heal record and changes no baseline. |
| Sentinel.AnalyseReport | tools/analyze_sentinel.py:26-65 | The loops of the analyser compute the analysis of the theorems. |
| BgpWire.NlriDecodes | servers/bgp_speaker.py:37-43 | The bytes of a prefix decode to it with the bits beyond its length cleared if and only if the length is at most 32. |
| BgpWire.AnnounceDecodes | servers/bgp_speaker.py:93-102 | An announcement fits a message and decodes, by section 4.3 of RFC 4271, to no withdrawals, ORIGIN, AS_PATH and NEXT_HOP with their values, and the prefix. |
| BgpWire.WithdrawDecodes | servers/bgp_speaker.py:104-107 | A withdrawal decodes to exactly the one withdrawn prefix. |
| BgpWire.AsPathDecodes | servers/bgp_speaker.py:95-96 | The AS_PATH is one sequence of the one four-octet AS number (section 4.1 of RFC 6793). |
| BgpWire.OpenDecodes | servers/bgp_speaker.py:78-88 | An OPEN decodes to version, hold time, identifier, the AS number or AS_TRANS, and the two capabilities (section 4 of RFC 5492). |
| BgpWire.AttributesDecode | servers/bgp_speaker.py:94-99 | The attribute bytes decode to three attributes with consistent lengths. |
| BgpStream.FramingRoundTrip | servers/bgp_speaker.py:73-76 | The speaker reads concatenated messages as those messages, followed by those of whatever comes after. |
| BgpStream.CutMessageIsHeldBack | servers/bgp_speaker.py:110-118 | Nothing of a message that is cut short is delivered. |
| BgpNeighbour.ReadExactly | servers/bgp_speaker.py:64-67 | A neighbour that checks marker, length and type as sections 4.1 and 6.1 of RFC 4271 say reads an encoded message back if and only if its type and length are acceptable, and otherwise closes. |
| BgpNeighbour.CutStreamIsRead | servers/bgp_speaker.py:64-67 | Wherever the stream is cut, it has the messages that arrived whole, and waits. |
| BgpStream.Socket.RecvN | servers/bgp_speaker.py:121-132 | Exactly n bytes through any chunks and timeouts, or nothing if the stream ends before. |
| BgpStream.Socket.RecvMsg | servers/bgp_speaker.py:110-118 | The first message of the incoming bytes, and the rest stays. |
| BgpStream.Socket.RecvAll | servers/bgp_speaker.py:110-132 | For every chunking and every timeout, the messages received are those of the bytes that come through. |
| BgpPeer.NeighbourMirrorsAdvertised | servers/bgp_speaker.py:127-208 | From the bytes on the wire: for every sequence of calls and receptions that withdraws no aliased prefix, the neighbour's table is the last-wins map of the advertise list while the session is up, and empty before. |
| BgpPeer.NeighbourReadsAll | servers/bgp_speaker.py:64-103 | Whatever is called and received, that neighbour reads back exactly the messages written and never finds a reason to close. |
| BgpPeer.SpeakerSaysExactly | servers/bgp_speaker.py:135-165 | What it hears besides UPDATEs: first one OPEN with the speaker's numbers, a KEEPALIVE for every OPEN of its own and every expiry of the timer, and never a NOTIFICATION. |
| BgpPeer.StepMirrored | servers/bgp_speaker.py:190-208 | Every step keeps that, except exactly the withdrawal of a prefix that is also advertised under another spelling. |
| BgpPeer.CanonicalRunsMeetNoAlias | servers/bgp_speaker.py:200-208 | With canonical prefixes there is no such withdrawal. |
| BgpPeer.EstablishedExactly | servers/bgp_speaker.py:139-170 | The session is up exactly from the first KEEPALIVE after an OPEN until a notification or the end of the stream, and no UPDATE is sent before. |
| BgpPeer.CallDuringBulk | servers/bgp_speaker.py:172-177 | By the messages sent: a call during the initial announcements is harmless if and only if its prefix is not waiting to be sent, or it announces the next hop that is waiting. |
| BgpPeer.MovedTable | servers/bgp_speaker.py:172-208 | What each message sent meanwhile does to the neighbour's table. |
| BgpPeer.CalmInterleavings | servers/bgp_speaker.py:172-208 | Every interleaving of the initial announcements with calls about other prefixes ends with the neighbour holding what is advertised. |
| BgpPeer.BulkStartsOnCourse | servers/bgp_speaker.py:155-173 | From the moment the session is up: whatever calls come before the list is copied, the copy is on course. |
| BgpPeer.CopyOnCourseExactly | servers/bgp_speaker.py:172-173 | A copy is on course exactly when the neighbour holds no prefix that is not advertised. |
| BgpPeer.EstablishedEndsAdvertised | servers/bgp_speaker.py:155-208 | Both phases together end with the neighbour holding what is advertised. |
| BgpPeer.WithdrawnRouteSurvives | servers/bgp_speaker.py:172-177 | A route with a length that exists, withdrawn while it waits, is all the neighbour holds in the end. |
| BgpPeer.TurnsExactly | servers/bgp_speaker.py:142-166 | The receive loop hears the handled messages in order, makes no calls, and ends at the first notification, or exactly without one at the end of the stream. |
| BgpPeer.HeardExactly | servers/bgp_speaker.py:149-164 | The messages received are exactly the handled ones. |
| BgpPeer.HandledExactly | servers/bgp_speaker.py:161-164 | Handled are the messages up to the first notification, or all when there is none. |
| BgpPeer.ComesUpExactly | servers/bgp_speaker.py:149-160 | The session comes up in the loop exactly when the incoming messages hold an OPEN and later a KEEPALIVE before any notification. |
| BgpPeer.BytesInTableOut | servers/bgp_speaker.py:127-177 | From bytes to bytes: the table that the bytes sent by the end of the loop build is what was to be advertised if the bytes received held that handshake, and empty if not. |
| BgpPeer.PyBgpPeer.Announce | servers/bgp_speaker.py:190-198 | Appends to the list and sends exactly while established. |
| BgpPeer.PyBgpPeer.Withdraw | servers/bgp_speaker.py:200-208 | Drops every entry spelt that way and sends exactly while established. |
| BgpPeer.PyBgpPeer.SendAllAnnounce | servers/bgp_speaker.py:172-177 | Sends one announcement per entry, in order. |
| BgpPeer.PyBgpPeer.Handle | servers/bgp_speaker.py:153-164 | One received message takes the model's step. |
| BgpPeer.PyBgpPeer.TakeTurn | servers/bgp_speaker.py:142-166 | One turn: the keepalive if due, then the first message of the incoming bytes, or the end. |
| BgpPeer.PyBgpPeer.Receive | servers/bgp_speaker.py:142-170 | Through any pieces and timeouts, the loop makes exactly the turns of the messages in the incoming bytes, with the keepalives that are due. |
| Gcu.DecodePath | framework/gcu.py:67-74 | Decoding a built path by sections 3 and 4 of RFC 6901 returns the tokens, for all strings. |
| Gcu.PathInjective | framework/gcu.py:67-74 | Different tokens give different paths. |
| Gcu.EscapeUnescape | framework/gcu.py:73-73 | Every well-formed reference token is the escape of what it decodes to. |
| Gcu.BuildPath | framework/gcu.py:71-74 | The loop builds that path. |
| Gcu.AddEntryExact | framework/gcu.py:76-86 | Applying the patch by RFC 6902 always succeeds, sets the entry, changes nothing else and leaves no table empty. |
| Gcu.RemovePresentExact | framework/gcu.py:88-94 | For a present key: removes that entry, nothing else, and leaves no table empty. |
| Gcu.RemoveAbsentExact | framework/gcu.py:88-94 | For an absent key: refused, except that a table with one other entry is removed. |
| Gcu.RemoveEntryRightExactly | framework/gcu.py:92-93 | The removal touches nothing but its entry if and only if it is not for an absent key of a one-entry table. |
| Gcu.RemoveUndoesAddExactly | framework/gcu.py:76-94 | Adding and then removing restores the document if and only if the key was fresh. |
| Gcu.AddUndoesRemove | framework/gcu.py:76-94 | Removing a present entry and adding it back restores the document. |
| PortRange.ExpandPbmExactly | framework/dut.py:110-121 | For every block of distinct port numbers: expanding the printed range gives exactly the block's names if and only if all prefixes are lower case and, when the numbers have no gap, all are the same. |
| PortRange.HasExactly | framework/vlanchk.py:47-51 | On such a block the membership test answers for its ports and no others. |
| PortRange.BlocksStayApart | framework/loopback.py:437-440 | The printed range of one block names no port of a disjoint block. |
| PortRange.RunPrinted | framework/dut.py:116-120 | A block with as many ports as its span has numbers is printed as its first and its last name with a dash between. |
| PortRange.GapPrinted | framework/dut.py:116-121 | Any other block is printed as the names of its ports, in the order of their numbers. |
| PortRange.ExpandSegment | framework/vlanchk.py:27-44 | The loop over the tokens collects exactly what they stand for. |
| PortRange.RangeToken | framework/vlanchk.py:36-39 | A range token reads as its names, inclusive on both ends, if its prefix is lower case, and as nothing otherwise. |
| PortRange.TokenExactly | framework/vlanchk.py:32-44 | What every text stands for as a token: a range, with or without the letters behind the dash, for its names; a name for itself; lower-case letters alone for their class; everything else, the word none included, for nothing. |
| PortRange.ClassHasExactly | framework/vlanchk.py:42-51 | Lower-case letters alone make the membership test answer for every port whose name begins with just these, and for no other; the word none makes it answer for none. |
| PortRange.HasNoClass | framework/vlanchk.py:47-51 | A name that begins with no lower-case letter belongs to no class. |
| PortRange.StripExactly | framework/vlanchk.py:33-35 | Blanks around a token do not count. |
| PortRange.ExpandAppend | framework/vlanchk.py:32-44 | A segment stands for what its comma-separated tokens stand for. |
| PortRange.SortBlock | framework/dut.py:116-117 | Sorting by number keeps the ports of the block. |
| Ladder.StepRefusedExactly | framework/cli.py:178-194 | A ladder call has a deletion refused exactly when it deletes the VLAN the pvid still points to because the pvid command has not landed. |
| Ladder.RunRefusesNothingExactly | framework/cli.py:152-194 | Over every sequence of calls for other VLANs: the pvid stays inside the membership, the home VLAN is kept, a port cached as L2 is one, and nothing is refused if and only if every deletion finds the pvid moved. |
| Ladder.DeletionRefusedExactly | framework/cli.py:178-194 | The same for any VLAN, the home VLAN included. |
| Ladder.AddThenDelRestoresExactly | framework/cli.py:152-194 | Up and down from home is the identity if and only if the mode is switched back and the pvid, if it went up, moved before the deletion. |
| Ladder.AddReachesExactly | framework/cli.py:152-176 | When the way up moves the pvid and when it joins the VLAN, in terms of which commands land. |
| Ladder.DelReachesExactly | framework/cli.py:178-194 | Where the way down leaves the pvid: home when the mode switches back, and otherwise in the remaining VLAN as soon as its command lands, before the deletion or after it. |
| Ladder.LadderDropsCache | framework/cli.py:156-194 | Every way up or down drops the port from the cache. |
| Ladder.EnsureReturnsHome | framework/cli.py:607-623 | The cache never lies: after any run about other VLANs, a conversion that lands, or is skipped because the port is cached, leaves the port in its home VLAN alone, classified into it, and not hybrid. |
| Ladder.Cli.HybridLadderAdd | framework/cli.py:152-176 | The method takes the model's step and reports success exactly when both steps were seen to land. |
| Ladder.Cli.HybridLadderDel | framework/cli.py:178-194 | The method takes the model's step. |
| Ladder.Cli.EnsurePortL2 | framework/cli.py:607-623 | Caches only a conversion that succeeded. |
| Worker.ImagesDisjointExactly | framework/worker.py:46-57 | While low images stay below high ones, the VLANs of two workers are disjoint if and only if no two low ids are 430 times their distance apart and no two high ids 10 times. |
| Worker.AuditSeparatesAll | framework/worker.py:46-57 | Different residues modulo 430 and 10 keep any two workers apart. |
| Worker.AuditedSeparate | framework/worker.py:49-51 | The listed ids meet the rule, for any two of the first five workers, and stay below 4094. |
| Worker.RemapMovesExactly | framework/worker.py:66-81 | Only addresses in 10.0.0.0/8 are moved, and only from worker 2 on: the second octet by 100 for every worker before, up where there is room; the rest stays. |
| Worker.WorkersMeetExactly | framework/worker.py:66-81 | An address that worker 1 keeps is one that worker 2 moves to exactly when their second octets are 100 apart on the right side. |
| Worker.RemapStaysRealExactly | framework/worker.py:78-81 | The moved address is an address if and only if the second octet has room on one side: always for worker 2, for worker 3 outside 56 to 199, never from worker 4 on. |
| Worker.RemapTwiceExactly | framework/worker.py:66-81 | Moving twice as worker 2 is the identity if and only if the address is not moved or its second octet is at least 56. |
| Worker.ContainmentKeptExactly | framework/worker.py:102-110 | For every outer length: worker 2's move keeps containment for all pairs if and only if the length is at most 8 or at least 14. |
| Worker.MiddleLengthsBreak | framework/worker.py:102-110 | The pair that it breaks for each length from 9 to 13. |
| Worker.ContainmentReflectedExactly | framework/worker.py:102-110 | It reflects containment for all pairs if and only if the length is at most 8. |
| Worker.ReflectionExactly | framework/worker.py:102-110 | From length 16 on, two subnets come to lie in each other exactly when they did, or their second octets are 200 apart and they would with the same one. |
| Worker.SettledContainment | framework/worker.py:102-110 | Among second octets from 56 on, containment is kept and reflected for every length up to 8 and from 14 on. |
| Worker.RemapKeepsContainment | framework/worker.py:102-110 | The same pair by pair for the lengths that keep it. |

## Left out

- The text of command results: the idempotency phrases of `_benign` and the verify hooks are
  verdicts that are given (framework/config_guard.py:43-81).
- Snapshots and the manual full restore of the configuration (framework/config_guard.py:28-30,
  framework/config_guard.py:100-103).
- Time: polling loops and timeouts are sequences of steps, and a command lands, lands late or does
  not.
- The JSON and the quoting of an injected operation, and the chip table assertions of the DLB module
  (framework/dlb.py:212-215).
- The value syntax of `lt` fields, hexadecimal numbers included (framework/dlb.py:80-92), and the
  recognition of fields and table headers in lines: the parser starts from the fields.
- Digits outside ASCII, which `isdigit` and `\d` also accept.
- Dynamic learning on the chip outside the hairpin, and ageing.
- Admin state and link state of the ports, with the waits for them (framework/loopback.py:261-304).
- The configuration-level test VLAN of switchport images (framework/loopback.py:155-175,
  framework/loopback.py:183-213).
- Static forwarding entries of the loopback manager (framework/loopback.py:225-235).
- The switch that turns the sentinel off, write errors of its log, the order of keys inside one
  record, and the two sizes in it beside their differences from the baseline.
- The printing of the analyser's report beyond its tables.
- The text of prefixes and addresses: a prefix is four bytes and a length.  Two spellings are two
  such values.
- The 16-byte marker is sent and not checked, as in the program; a length below 19 is read as an
  empty body, as in the program.
- Connection set-up, `stop` and send errors of the BGP speaker; the subprocess protocol around it.
- What a BGP neighbour does with its routes when the connection closes.
- How a BGP neighbour chooses among routes of several peers: the table is of this speaker's routes.
- Arrays in JSON documents, which CONFIG_DB paths of tables and entries do not reach, and the
  acceptance rules of the device beyond empty tables.
- Checkpoints and the calls of `config apply-patch` (framework/gcu.py:26-65).
- The rule that maps an Ethernet name to a chip port name (framework/dut.py:139-150): blocks are
  given by chip names whose numbers have no leading zero.
- All of `_fixup` but the ladder and the L2 cache (framework/cli.py:30-142).
- Per-worker IPv6 prefixes and AS numbers (framework/worker.py:84-99, framework/worker.py:113-118).
- The subset arithmetic of watched queues, which finitely many cases settle.
- DlbQueues.Dlb.ReapResponse: does not model the misalignment message, which changes nothing.
