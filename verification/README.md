# UrsusBoot boot-path model

A Dafny 4.11 model of the parts of this repository that read, rewrite or walk boot data, with proofs
of what they promise. `dafny verify dfyconfig.toml` checks all of it.

Imperative C and Python code is modelled by methods with loops, arrays and classes, each proved equal
to a specification function; the laws below are lemmas about those functions.

| modules | what they model |
|---|---|
| `FdtTags`, `FdtRuns`, `FdtFind`, `FdtTree` | `fdt_find_regions()`: a walk over the tags of section 5.4 of the Devicetree Specification, against a recursive definition over trees |
| `FdtIter`, `FdtResume`, `FdtPass`, `FdtDamage`, `FdtTame`, `FdtState`, `FdtCalls` | `fdt_first_region()` and `fdt_next_region()`: one region per call, against a single pass with unbounded slots |
| `FdtCover`, `FdtKeep`, `FdtExact` | what that single pass keeps, against a recursive definition over trees |
| `AbSlots`, `AbRuns` | the A/B slot metadata: slot choice, ordered writes, power cuts at any point, any number of reboots |
| `BootOrder`, `BootTrace`, `BootScan` | the bootflow iterator: priorities, bootdevs, partitions, bootmeths, and global bootmeths in between |
| `CmdlineArgs`, `Cmdline`, `CmdlineLaws` | the kernel command-line editor |
| `Bytes`, `FipToc`, `FipCompact`, `FipRepack`, `FipPersist`, `FipDonor`, `FipInstall`, `FipValidate` | firmware image packages: three parsers, four repackers, the boot loader's validator, placement in the boot partition |
| `Bootconfig`, `MemMove`, `Translate`, `Cmos` | the bootconfig trailer, the chunked move, bus address translation, menu settings in CMOS bits |

CRC-32, SHA-256 and the results of bootmeths and callbacks are function-valued parameters; LZMA is
outside (the repackers are modelled from the compressed payload on). A device tree is the sequence of
its readable tags; a UUID is the number that its bytes spell.

## What turned out false, and exactly when it holds

- Repeated `fdt_next_region()` calls give the regions of the single pass for every tree and callback if
  and only if FDT_REG_SUPERNODES is set (`FdtDamage.FaithfulIffSupernodes`). Without it, an END_NODE
  that is refused has already cut the path buffer, and the retry cuts it once more, so later nodes are
  offered to the callback under a wrong path. That does no harm, whatever the flags, if no node is below
  the children of the root or if the callback treats all nodes alike (`FdtTame.TameFaithful`); the tree
  that shows the failure is one level deeper.
- The regions that `fdt_next_region()` finds in a tree hold exactly the tags that its callback and flags ask for
  if and only if the structure block has no leading NOPs, or FDT_REG_SUPERNODES is not set, or an empty reserve
  map was added (`FdtExact.FullKeepsTree`). Otherwise the eight bytes that are taken for the root's BEGIN_NODE
  are those of the NOPs, and adding them may cut off the last region. Where the regions are exact they are sorted
  and do not touch, but for an empty root that is not wanted itself, behind the reserve map.
- After a power cut during `ab_select_slot()` the next call works on the old or the new metadata, at every
  cut point, if and only if the call has nothing new to write, or the backup is intact and holds the old
  or the new metadata (`AbRuns.ContinuesIff`). That some intact copy is left needs less: an intact backup,
  or nothing new to write (`AbRuns.SurvivesIff`). Two cuts in a row can lose both copies
  (`AbRuns.TwoCutsLoseAll`), or keep one that is stale, so that a try that was spent comes back
  (`AbRuns.TwoCutsRollBack`): a complete call must come between them.
- A scan with a configured order of bootmeths takes exactly the global bootmeths for global ones if and
  only if the order lists no other bootmeth after a global one (`BootOrder.ConfiguredSplitIff`).
- A bootconfig call leaves one trailer if and only if the new payload does not end in the magic
  (`Bootconfig.StepSeals`), and the section is right after every one of many calls if and only if no payload
  on the way does (`Bootconfig.RightIffClean`). Otherwise the next call takes the end of the payload for a
  trailer and cuts it off (`Bootconfig.MagicCutsPayload`).
- The three repackers of two-entry packages agree on a canonical donor if and only if the new payload
  is not empty (`FipRepack.RepackAll`).
- A bus address is the start of its range plus its offset if and only if that sum fits the cells of the
  parent bus (`Translate.UpFits`).

## Where code and documentation differ

The model follows the code.

- `fdt_find_regions()`: the path buffer must be one or two characters longer than the longest path and its NUL; a
  NOP between the END_NODE of the root and END is an error.
- `bootflow_scan_first()` starts the first global bootmeth whatever its `glob_prio`
  (`src/u-boot/include/bootmeth.h:33-35` says "before the iteration reaches the given priority").
- `bootflow_scan_next()` keeps the error of an earlier check after a success, so BF_NO_MORE_PARTS from
  before can end the partitions of a later bootdev; a check that returns -ENODEV ends the scan.
- `ab_control_default()` sets two of the four slots and leaves the others as they were read.

## Model

| member | source | states |
|---|---|---|
| FdtRuns.RunsExact | src/u-boot/boot/fdt_region.c:129-146 | merging tags into runs gives sorted, non-touching regions that hold exactly the bytes of the covered tags |
| FdtRuns.SeparatedUnique | src/u-boot/boot/fdt_region.c:129-146 | two sorted, non-touching region lists that hold the same bytes are the same list |
| FdtFind.AppendName | src/u-boot/boot/fdt_region.c:93-98 | the path buffer holds the path of the entered node |
| FdtFind.CutName | src/u-boot/boot/fdt_region.c:117-119 | the path buffer is cut at its last '/' |
| FdtFind.WalkTags | src/u-boot/boot/fdt_region.c:48-147 | the tag loop finds the runs of the include flags or the first error, with as many regions stored as there are slots |
| FdtFind.FindRegions | src/u-boot/boot/fdt_region.c:32-162 | the call returns the regions of the tag stream, or exactly the first error; with too few slots the array holds a prefix and the count exceeds it |
| FdtTree.ScanForest | src/u-boot/boot/fdt_region.c:67-127 | over a forest the decaying `want` value, its stack and the path buffer give the include flags of the recursive definition and come back to where they were |
| FdtTree.ScanStream | src/u-boot/boot/fdt_region.c:50-147 | the same for a whole tree; it fails iff a node is too deep or a path too long, with the error of the first such node |
| FdtTree.FindKeepsTree | src/u-boot/boot/fdt_region.c:32-162 | for every tree with '/'-free names the regions are separated and hold exactly the tags that the recursive definition keeps, an END_NODE that closes a run, END and the strings |
| FdtResume.NextOne | src/u-boot/boot/fdt_region.c:460-702 | with FDT_REG_SUPERNODES one call from a sound state gives the first region of the single pass and a sound state from which the rest follows |
| FdtResume.ResumeDelivers | src/u-boot/boot/fdt_region.c:460-702 | with FDT_REG_SUPERNODES call number n gives region n of the single pass, and the call after the last one reports the end |
| FdtResume.SupernodesFaithful | src/u-boot/boot/fdt_region.c:362-386 | the same from the start, for every tree and callback |
| FdtResume.SupernodesRefused | src/u-boot/boot/fdt_region.c:313-345 | what is added behind a full slot is what a retry adds into an empty one |
| FdtPass.ResumeFails | src/u-boot/boot/fdt_region.c:460-702 | with FDT_REG_SUPERNODES, if the single pass fails, call number n gives its region n, and the call for its last region gives its error |
| FdtPass.SupernodesFails | src/u-boot/boot/fdt_region.c:362-386 | the same from the start: the calls fail with the error of the single pass, and no sooner |
| FdtPass.NextLess | src/u-boot/boot/fdt_region.c:460-702 | for every tree, callback and set of flags, a call that gives a region leaves less to do |
| FdtPass.CollectedFaithful | src/u-boot/boot/fdt_region.c:362-702 | a run of calls that is faithful to a single pass collects exactly its regions and then reports the end |
| FdtPass.CollectedFails | src/u-boot/boot/fdt_region.c:362-702 | with FDT_REG_SUPERNODES, a run whose single pass fails collects its regions but the last, and its error |
| FdtCover.ChainCovers | src/u-boot/boot/fdt_region.c:313-345 | the supernodes that are put hold exactly the BEGIN_NODEs of the open nodes that were in no region yet |
| FdtCover.StepOn | src/u-boot/boot/fdt_region.c:491-656 | one tag of the single pass adds exactly its own bytes and those of the nodes around it to regions and open run; while a run is open, all nodes around it are in a region |
| FdtKeep.WalkForest | src/u-boot/boot/fdt_region.c:516-656 | over the inside of a node the single pass keeps exactly what a recursive reading keeps: a property by its own answer, or with its node if that is -1; a NOP with its node; a node by its own answer, one level below a wanted one with FDT_REG_DIRECT_SUBNODES, anywhere below with FDT_REG_ALL_SUBNODES, and around anything kept with FDT_REG_SUPERNODES; it fails with the error of the first node that is too deep or too long |
| FdtExact.FullKeepsTree | src/u-boot/boot/fdt_region.c:460-702 | for every tree with '/'-free names the single pass fails iff a node is too deep, a path too long or the strings block too low; else it gives the reserve map, regions that hold exactly the kept tags, the root's BEGIN_NODE if supernodes ask for it, the last END_NODE, END, and the strings; exact iff there are no leading NOPs or nobody asks for the root, and then separated iff not an unwanted empty root behind a reserve map |
| FdtExact.CallsKeepTree | src/u-boot/boot/fdt_region.c:362-702 | the same of the regions that faithful calls collect |
| FdtCalls.AllRegions | src/u-boot/boot/fdt_region.c:362-702 | calling until a call does not return 0 always ends; with FDT_REG_SUPERNODES, and wherever calls are faithful, it gives all regions of the single pass, which for a tree are those of `FullKeepsTree`; with the flag it gives the error of a pass that fails |
| FdtTame.PopDamage | src/u-boot/boot/fdt_region.c:618-620 | the retry of a refused END_NODE cuts off two components of the path |
| FdtTame.FullAlike | src/u-boot/boot/fdt_region.c:460-702 | for a callback that treats all nodes alike, a shorter path changes nothing that the single pass finds |
| FdtTame.NextTame | src/u-boot/boot/fdt_region.c:460-702 | without FDT_REG_SUPERNODES, in a tree of two levels or with such a callback, a call gives the next region of the single pass and a state from which the rest follows |
| FdtTame.TameFaithful | src/u-boot/boot/fdt_region.c:460-702 | the calls are faithful to the single pass whatever the flags, if no node is below the children of the root or the callback treats all nodes alike |
| FdtDamage.ExampleStrays | src/u-boot/boot/fdt_region.c:605-621 | without FDT_REG_SUPERNODES, whatever the other flags, one tree and callback get a region that the single pass does not have |
| FdtDamage.FaithfulIffSupernodes | src/u-boot/boot/fdt_region.c:460-702 | calls are faithful to the single pass for every tree and callback iff FDT_REG_SUPERNODES is set |
| FdtState.RegionState.AddRegion | src/u-boot/boot/fdt_region.c:174-196 | one slot: the region is merged, added or refused as the specification says |
| FdtState.RegionState.IncludeSupernodes | src/u-boot/boot/fdt_region.c:313-345 | the loop over the open nodes gives the chain of the specification, also when it is refused half-way |
| FdtState.RegionState.DecideTag | src/u-boot/boot/fdt_region.c:508-628 | the switch on a copy of the position decides as specified; a cut of the path stays in the buffer |
| FdtState.RegionState.OpenTag | src/u-boot/boot/fdt_region.c:631-638 | starting a run adds the supernodes first, or is refused and leaves what the retry finds |
| FdtState.RegionState.CloseTag | src/u-boot/boot/fdt_region.c:644-652 | ending a run stores the region, or is refused |
| FdtState.RegionState.NextTag | src/u-boot/boot/fdt_region.c:491-656 | one turn of the tag loop is one step of the specification |
| FdtState.RegionState.NextParts | src/u-boot/boot/fdt_region.c:658-701 | the parts after the tags finish the call as specified |
| FdtState.RegionState.NextRegion | src/u-boot/boot/fdt_region.c:460-702 | a call on the kept state is one call of the specification: code, region and new state, also at the end |
| FdtState.RegionState.FirstRegion | src/u-boot/boot/fdt_region.c:362-386 | the first call starts from the empty state |
| AbSlots.ChooseSlot | src/u-boot/boot/android_ab.c:289-314 | the slot is the first one that is best by priority, success and tries among the bootable ones, or -1 |
| AbSlots.FirstBestUnique | src/u-boot/boot/android_ab.c:176-192 | the first best slot is unique |
| AbSlots.ChoiceExact | src/u-boot/boot/android_ab.c:289-314 | field by field: no slot iff every counted one is corrupted or has neither tries nor success; the chosen one is beaten by no other in priority, success, tries, in this order, and beats all before it |
| AbSlots.UpdateExact | src/u-boot/boot/android_ab.c:283-341 | the chosen slot loses one try iff tries count and it is not marked successful; the suffix names it; every other slot and field stays; a slot count over four becomes four |
| AbSlots.DefaultBoots | src/u-boot/boot/android_ab.c:41-67 | the defaults give two slots with priority 15 and 7 tries, of which the first is chosen; the other two slots stay |
| AbSlots.SelectExact | src/u-boot/boot/android_ab.c:254-376 | -ENODATA for a wrong magic or version, -EINVAL without a slot, else the slot; the primary is written iff it was torn or the metadata changes, and with the updated metadata |
| AbSlots.UpdateSlots | src/u-boot/boot/android_ab.c:283-341 | the metadata after a call, and whether it has to be stored |
| AbSlots.Device.Store | src/u-boot/boot/android_ab.c:139-163 | a write reaches its copy, is torn, or never happens |
| AbSlots.Device.StoreBoth | src/u-boot/boot/android_ab.c:343-369 | the primary is written before the backup, each only if needed |
| AbSlots.Device.SelectSlot | src/u-boot/boot/android_ab.c:194-377 | a call on a device that fails at any write leaves exactly the disk that a cut at that write leaves, and returns the slot or the error |
| AbSlots.CutWrites | src/u-boot/boot/android_ab.c:343-369 | cutting a list of writes is writing some of it and tearing one write |
| AbRuns.CompleteSyncs | src/u-boot/boot/android_ab.c:343-376 | a call that completes leaves both copies intact and equal to the new metadata |
| AbRuns.CutKeepsMetadata | src/u-boot/boot/android_ab.c:205-252 | from equal intact copies, a cut at any point with a detected torn write lets the next call act on exactly the old or the new metadata |
| AbRuns.SurvivesIff | src/u-boot/boot/android_ab.c:343-369 | every cut leaves an intact copy iff the backup is intact or nothing new is written |
| AbRuns.ContinuesIff | src/u-boot/boot/android_ab.c:205-369 | every cut lets the next call act on the old or the new metadata iff nothing new is written, or the backup is intact and holds one of them |
| AbRuns.TwoCutsRollBack | src/u-boot/boot/android_ab.c:343-369 | with two tries left, two cuts in a row can bring back a spent try, with an intact copy at every point |
| AbRuns.RunKeepsMetadata | src/u-boot/boot/android_ab.c:194-377 | over any number of reboots with cuts, each followed by a complete call, the metadata descends from the first by calls only and never from defaults |
| AbRuns.TwoCutsLoseAll | src/u-boot/boot/android_ab.c:343-369 | two cuts in a row can leave no intact copy |
| AbRuns.SpendOne | src/u-boot/boot/android_ab.c:316-324 | with no successful slot a decrementing call finds a slot iff tries are left, and spends exactly one |
| AbRuns.BudgetExact | src/u-boot/boot/android_ab.c:283-376 | exactly as many decrementing calls succeed as the uncorrupted slots have tries in all; every later one returns -EINVAL |
| AbRuns.PeekKeeps | src/u-boot/boot/android_ab.c:316-324 | a call that does not decrement changes neither the next choice nor the budget |
| BootOrder.PickedExact | src/u-boot/boot/bootmeth-uclass.c:182-196 | a pass lists each bootmeth of its kind once, by sequence number, and no other |
| BootOrder.Pass | src/u-boot/boot/bootmeth-uclass.c:174-197 | a pass fills the order array behind the pass before it and never runs out of room |
| BootOrder.OrderSplit | src/u-boot/boot/bootmeth-uclass.c:165-211 | the bootmeths from `first_glob_method` on are exactly the global ones |
| BootOrder.SetupOrder | src/u-boot/boot/bootmeth-uclass.c:108-230 | the order is the normal bootmeths that can be probed, then the global ones unless skipped; -ENOENT iff there are none, -ENOSPC iff there are too many |
| BootOrder.ConfiguredOrder | src/u-boot/boot/bootmeth-uclass.c:108-230 | a configured order is kept as it is, with its first global bootmeth, or the exact error |
| BootOrder.ConfiguredSplitIff | src/u-boot/boot/bootmeth-uclass.c:130-211 | the scan takes exactly the global bootmeths for global ones iff no other one is listed after a global one |
| BootTrace.OrderlyNext | src/u-boot/boot/bootflow.c:290-490 | a visit that follows the rules keeps a trace orderly: ascending, no gaps, globals once and in time |
| BootTrace.Land | src/u-boot/boot/bootdev-uclass.c:619-683 | the next bootdev found is after all that were tried, and no due bootdev was passed over |
| BootTrace.LandGlobal | src/u-boot/boot/bootflow.c:261-270 | a bootdev may be put aside for a global bootmeth that is due |
| BootTrace.TakePending | src/u-boot/boot/bootflow.c:327-353 | when a global pass ends, the bootdev put aside may be tried, at partition 0 and the first bootmeth |
| BootTrace.MoveDev | src/u-boot/boot/bootflow.c:390-490 | moving on shrinks (globals left, priorities left, bootdevs left, partitions left, bootmeths left) |
| BootTrace.MethodsTried | src/u-boot/boot/bootflow.c:303-325 | a finished scan has tried every bootmeth that is not global on every partition it came to |
| BootTrace.DevicesTried | src/u-boot/boot/bootflow.c:390-490 | and on partition 0 of every working bootdev that was due, unless a hunter failed |
| BootScan.Iter.HuntDrv | src/u-boot/boot/bootdev-uclass.c:785-810 | a hunter runs once; one that fails is not marked as used |
| BootScan.Iter.HuntPrio | src/u-boot/boot/bootdev-uclass.c:877-902 | which hunters of a priority run, what they bind and which are marked; the result is the error of the last one that fails, or 0 |
| BootScan.Iter.NextPrio | src/u-boot/boot/bootdev-uclass.c:619-683 | the next working bootdev by priority and position, with no due bootdev skipped and every priority on the way hunted; or -ENODEV with none left, or the error of a hunter |
| BootScan.Iter.SetupIter | src/u-boot/boot/bootdev-uclass.c:685-783 | the first bootdev, after the pre-scan hunters |
| BootScan.Iter.NextGlob | src/u-boot/boot/bootflow.c:227-250 | the first unused global bootmeth whose priority is reached by the scan, or none is left |
| BootScan.Iter.PrepareBootdev | src/u-boot/boot/bootflow.c:261-283 | the bootdev is set, or put aside for a global bootmeth |
| BootScan.Iter.NextMethod | src/u-boot/boot/bootflow.c:303-325 | the next bootmeth of this partition, or the next global one whose priority is reached |
| BootScan.Iter.IterIncr | src/u-boot/boot/bootflow.c:290-490 | the iterator moves to something that may be tried next and gets smaller, or everything that was due has been tried; after the last bootmeth of a partition comes the next partition exactly when the limit allows it and no error forbids it |
| BootScan.Iter.Check | src/u-boot/boot/bootflow.c:500-538 | what a check returns and how it limits the partitions |
| BootScan.Iter.ScanNext | src/u-boot/boot/bootflow.c:592-623 | a call ends and leaves a smaller iterator; it returns at the first visit whose check is to be reported, or at the end of the scan |
| BootScan.Iter.ScanFirst | src/u-boot/boot/bootflow.c:540-590 | the same from a cleared iterator; -ENODEV without bootmeths |
| BootScan.Iter.ScanWhole | src/u-boot/boot/bootflow.c:540-623 | calling until -ENODEV ends after finitely many calls, for all hunters, bootdevs, bootmeths and check results: visits strictly ascend by (priority, bootdev, partition, bootmeth) without gaps, each global bootmeth is tried at most once, not before the scan has reached its priority (but for the very first visit) and before the bootdevs it precedes, a bootdev put aside comes next, a bootdev is left exactly when the checks so far allow it no further partition, every due bootdev and global bootmeth is tried unless a hunter fails or a check gives -ENODEV, and every reported check is returned by exactly one call; at the end too no bootdev is still put aside or left before its last bootmeth and partition |
| BootScan.Iter.PartsTakenAt | src/u-boot/boot/bootflow.c:379-398 | of every visit in such a trace: after the last bootmeth of a partition the scan stays at the bootdev iff the limit set by the checks so far allows a further partition and the error kept is not BF_NO_MORE_PARTS |
| BootScan.Iter.ScanAll | src/u-boot/cmd/bootflow.c:221-237 | the command's loop is such a scan, or stops after 1000 calls that are in order too |
| CmdlineArgs.ArgsSolid | src/u-boot/boot/bootflow.c:926-950 | every argument that is read is one argument by itself |
| CmdlineArgs.ArgsJoin | src/u-boot/boot/bootflow.c:915-1015 | joining arguments with single spaces and reading them again gives the same list |
| Cmdline.ScanArg | src/u-boot/boot/bootflow.c:926-950 | the end of an argument and of its name, quotes included, or -EINVAL for an open quote |
| Cmdline.CopyIn | src/u-boot/boot/bootflow.c:866-896 | the rendered argument is appended, or -E2BIG iff it does not fit |
| Cmdline.EditArgs | src/u-boot/boot/bootflow.c:915-1015 | the loop writes the edited arguments with single spaces, or the exact error |
| Cmdline.SetArg | src/u-boot/boot/bootflow.c:898-1044 | the buffer holds the line of the specification and its NUL, or the exact error |
| Cmdline.GetArg | src/u-boot/boot/bootflow.c:1076-1083 | position and length of the value, or the exact error |
| CmdlineLaws.SetLine | src/u-boot/boot/bootflow.c:898-1044 | the result is the edited list single-spaced, and -E2BIG iff that line with its NUL exceeds `maxlen` |
| CmdlineLaws.SetReads | src/u-boot/boot/bootflow.c:898-1044 | the result reads back as the edited list |
| CmdlineLaws.EditedChanges | src/u-boot/boot/bootflow.c:974-1033 | the other arguments stay byte-identical and in order; every occurrence of the target has the new value; it is there iff it was not deleted |
| CmdlineLaws.GetAfterSet | src/u-boot/boot/bootflow.c:977-988 | after a set, reading gives exactly the new value without its quotes |
| CmdlineLaws.GetExact | src/u-boot/boot/bootflow.c:926-988 | reading any line gives the value of the first argument of that name, without its quotes; -ENOENT if there is none, -EINVAL if a quote is left open |
| CmdlineLaws.SetRefuses | src/u-boot/boot/bootflow.c:898-1044 | which of the errors of a set wins: a quote in the value, then a line too long, then an open quote, then nothing to delete |
| CmdlineLaws.SetTwice | src/u-boot/boot/bootflow.c:898-1044 | setting twice is setting the last value once |
| CmdlineLaws.SetThenDelete | src/u-boot/boot/bootflow.c:989-997 | deleting what was just added restores the line up to its spacing |
| FipToc.EntryRoundTrip | src/u-boot/repack_persistent_fip.py:30 | an entry and its 40 bytes determine each other |
| FipToc.ParseExact | src/u-boot/repack_persistent_fip.py:25-36 | a package parses to a table iff it starts with that table, ended by a zero UUID, with every entry within it |
| FipToc.ParsePersistent | src/u-boot/repack_persistent_fip.py:25-36 | the loop gives the table or the first error |
| FipToc.ParseRecovery | scripts/mf/medve/patch_recovery_safe_fip.py:31-48 | the same for packages of at least 96 bytes |
| FipToc.ParseVanilla | scripts/vanilla/make_vanilla_fip.py:38-58 | accepts exactly the packages that also have the standard serial, no empty entry and their length as end |
| FipCompact.CompactParses | scripts/mf/mf2_repack_from_medve.py:44-63 | a compact package parses to its own table, and its end is its length |
| FipCompact.CompactPayload | scripts/mf/mf2_repack_from_medve.py:46-61 | each payload is where its entry says |
| FipRepack.LayOut | scripts/mf/mf2_repack_from_medve.py:44-61 | a buffer filled by cursor is the compact package |
| FipRepack.BuildKeeps | scripts/mf/mf2_repack_from_medve.py:63-86 | the checks of the rebuilt package never fail: header, UUIDs, flags and the first payload are kept |
| FipRepack.RebuildMf2 | scripts/mf/mf2_repack_from_medve.py:22-105 | takes exactly the two-entry donors whose payloads begin behind the table and whose end is their length |
| FipRepack.RebuildRecovery | scripts/mf/medve/patch_recovery_safe_fip.py:163-205 | the same without the check of the end |
| FipRepack.ConcatenationCompact | scripts/vanilla/make_vanilla_fip.py:71-82 | the concatenated byte strings are the compact package |
| FipRepack.Repack | scripts/vanilla/make_vanilla_fip.py:61-90 | succeeds iff the donor is canonical and the payload not empty, with the compact package |
| FipRepack.RepackAll | scripts/vanilla/make_vanilla_fip.py:61-90 | on a canonical donor all three repackers give the same bytes iff the payload is not empty |
| FipPersist.AlignUp | src/u-boot/repack_persistent_fip.py:23 | the next multiple of 0x800 |
| FipPersist.FirstExact | src/u-boot/repack_persistent_fip.py:44-48 | the certificates stay unless NT_FW reaches past them; then the first is at the least multiple of 0x800 not before the end of NT_FW |
| FipPersist.NewEntryExact | src/u-boot/repack_persistent_fip.py:50-75 | of each entry only NT_FW's size, the certificates' places and the checksum's place and size change, and to what |
| FipPersist.MetaReads | src/u-boot/repack_persistent_fip.py:79-84 | the checksum payload tells length, CRC-32 and SHA-256 of what is before it |
| FipPersist.WriteFixed | src/u-boot/repack_persistent_fip.py:60-62 | the fixed payloads are copied to where they were and nothing else changes |
| FipPersist.WriteCerts | src/u-boot/repack_persistent_fip.py:64-66 | the certificates are copied to their slots and nothing else changes |
| FipPersist.WriteTable | src/u-boot/repack_persistent_fip.py:67-78 | the table is the new one and no byte outside of it changes |
| FipPersist.Fill | src/u-boot/repack_persistent_fip.py:56-78 | all that the checksum covers is in place, and zero behind it |
| FipDonor.RebuiltParses | src/u-boot/repack_persistent_fip.py:86-87 | the output parses to the same UUIDs and flags with the new ranges |
| FipDonor.RebuiltKeeps | src/u-boot/repack_persistent_fip.py:55-84 | NT_FW is the new payload, the checksum entry covers what is before it, all other payloads are byte-identical |
| FipDonor.NewDisjoint | src/u-boot/repack_persistent_fip.py:46-52 | no two payloads overlap, unless both were copied and overlap in the donor |
| FipDonor.RebuiltUnique | src/u-boot/repack_persistent_fip.py:38-85 | donor and payload determine every byte of the output |
| FipDonor.RebuiltDonor | src/u-boot/repack_persistent_fip.py:38-85 | the output is a donor again |
| FipDonor.RebuildIdempotent | src/u-boot/repack_persistent_fip.py:38-94 | rebuilding the output with the same payload changes no byte |
| FipInstall.RebuiltVerified | src/u-boot/repack_persistent_fip.py:86-93 | the checks at the end never fail for a donor |
| FipInstall.Rebuild | src/u-boot/repack_persistent_fip.py:38-94 | of a donor the rebuilt package or that it overlaps or is too large; of any template only what passed the checks |
| FipInstall.RebuildTwice | src/u-boot/repack_persistent_fip.py:38-94 | two rebuilds in a row return the same bytes, whichever of them forces the old layout |
| FipInstall.InstallMtd0 | scripts/make-install-mtd0.py:5-9 | succeeds iff size, room and magic are right; then the package is at its offset and every byte before and behind it is unchanged |
| FipInstall.RebuiltInstalls | scripts/make-install-mtd0.py:6-9 | a rebuilt package ends before the environment and has the magic |
| FipValidate.FirstPass | scripts/mf/mf3_persist2_validator.py:62-89 | accepts exactly the tables whose entries are not empty and within the buffer, with a sound terminator among the first 32 entries; -ERANGE iff the first fault is an entry outside of the buffer |
| FipValidate.SecondPass | scripts/mf/mf3_persist2_validator.py:93-100 | every payload lies between the table and the declared end |
| FipValidate.FipParse | scripts/mf/mf3_persist2_validator.py:46-112 | accepts a buffer iff the Python parser reads from it a bounded table with NT_FW; the NT_FW range and the end are those it reads, without wrap-around; -ERANGE iff the fault is a range, else -EINVAL |
| FipValidate.ValidateLayout | scripts/mf/mf3_persist2_validator.py:182-190 | additionally the size limits, and the declared end is the length; which error code when |
| FipValidate.BuiltAccepted | scripts/mf/mf3_persist2_validator.py:46-112 | a compact package with the standard serial is accepted iff it has less than 32 entries, none empty, and NT_FW |
| FipValidate.BuiltRanges | scripts/mf/mf3_persist2_validator.py:102-107 | its declared end is its length and its NT_FW range holds the NT_FW payload |
| FipValidate.RepackedAccepted | scripts/mf/mf2_repack_from_medve.py:40-63 | what the three repackers build is accepted, with the new payload as NT_FW |
| Bootconfig.Checksum | src/u-boot/boot/image-android.c:21-28 | the byte sum modulo 2^64 |
| Bootconfig.AddTrailer | src/u-boot/boot/image-android.c:36-58 | size, sum and magic behind the section, unless it is empty or ends in the magic; -1 for a null address |
| Bootconfig.AddParameters | src/u-boot/boot/image-android.c:65-98 | what memory holds and the delta that is returned; if a trailer that is found lies in the section, this is one step of the section with the memory before it untouched |
| Bootconfig.TrailerReads | src/u-boot/boot/image-android.c:50-55 | the trailer tells size and byte sum modulo 2^32 |
| Bootconfig.StepSeals | src/u-boot/boot/image-android.c:65-98 | a call appends the parameters and leaves one trailer iff the new payload does not end in the magic |
| Bootconfig.AddAll | src/u-boot/boot/image-android.c:65-98 | after any number of calls, each fed the size the last one left: the payload, all parameters in order, and one trailer, if no payload on the way ends in the magic |
| Bootconfig.RightIffClean | src/u-boot/boot/image-android.c:65-98 | the section is right after every one of any number of calls iff no payload on the way ends in the magic |
| Bootconfig.MagicCutsPayload | src/u-boot/boot/image-android.c:80-84 | the call after a payload that ends in the magic cuts the length of a trailer off that payload |
| Bootconfig.MagicLosesTrailer | src/u-boot/boot/image-android.c:30-34 | parameters that end in the magic get no trailer |
| MemMove.MoveChunks | src/u-boot/boot/image-board.c:170-189 | the chunk loop moves as one whole move would |
| MemMove.MoveWd | src/u-boot/boot/image-board.c:165-193 | the same for every overlap, length, chunk size and watchdog setting |
| MemMove.MovedUnique | src/u-boot/boot/image-board.c:190-192 | a move has one outcome |
| Translate.ReadNumber | src/u-boot/include/fdt_support.h:447-453 | the number that the cells spell, modulo 2^64 |
| Translate.NumberShift | src/u-boot/include/fdt_support.h:447-453 | a 64-bit shift by one cell is one more cell of the number modulo 2^64 |
| Translate.MapEntry | src/u-boot/boot/fdt_support.c:1293-1307 | the offset in a range, or none, with the wrap-around of 64 bits |
| Translate.AddOffset | src/u-boot/boot/fdt_support.c:1309-1319 | the sum in 64 bits, cut to one cell on a one-cell bus |
| Translate.WalkRanges | src/u-boot/boot/fdt_support.c:1448-1458 | the first entry that maps the address, or none |
| Translate.TranslateOne | src/u-boot/boot/fdt_support.c:1416-1467 | the cells hold the address on the parent bus, by the first matching entry or unchanged without ranges |
| Translate.HitExact | src/u-boot/boot/fdt_support.c:1448-1458 | the entry that is found is the first one with the address in its range, and none iff no entry has it |
| Translate.UpExact | src/u-boot/boot/fdt_support.c:1416-1467 | a level gives the address by that entry, or none iff there are ranges and none has it |
| Translate.WalkClimbs | src/u-boot/boot/fdt_support.c:1505-1547 | all levels together, address by address, without the recursion of the specification |
| Translate.TranslateAddress | src/u-boot/boot/fdt_support.c:1479-1550 | the number in the cells climbs from bus to bus: on each to the parent start of the first entry with the address in its range plus the offset, cut to the cells of the parent, or unchanged without ranges; at the root it is the result, and OF_BAD_ADDR at the first bus with bad counts or no such entry |
| Translate.UpFits | src/u-boot/boot/fdt_support.c:1309-1319 | a level adds range start and offset iff the sum fits the parent's cells |
| Translate.WalkTogether | src/u-boot/boot/fdt_support.c:1505-1547 | two addresses that hit the same entries without overflow keep their distance through any number of levels |
| Cmos.CurrentValue | src/u-boot/boot/cedit.c:301-316 | the value of the first item with the current id, or its position if it has no value |
| Cmos.FindValue | src/u-boot/boot/scene_menu.c:64-78 | the first item that stands for a value |
| Cmos.BitIs | src/u-boot/boot/cedit.c:727-735 | bit n is bit n % 8, counted from the lowest, of byte n / 8 |
| Cmos.WriteMenu | src/u-boot/boot/cedit.c:703-739 | exactly the bits of the menu's field are added to the mask, and exactly the set bits of its value to the value bytes |
| Cmos.ReadMenu | src/u-boot/boot/cedit.c:792-842 | the menu selects the first item with the number in its field, or the exact error |
| Cmos.Editor.WriteSettings | src/u-boot/boot/cedit.c:741-790 | in every byte with a bit of a field exactly the bits of the settings are set, so its bits outside of all fields are cleared, and every other byte stays; or the error of the first menu and nothing is written |
| Cmos.Editor.ReadSettings | src/u-boot/boot/cedit.c:844-888 | the menus up to the first unreadable one are restored from the RTC |
| Cmos.MenuRoundTrip | src/u-boot/boot/cedit.c:703-842 | what was written for a menu is read back, whatever is selected meanwhile |
| Cmos.RoundTrip | src/u-boot/boot/cedit.c:703-888 | writing all menus with disjoint fields and distinct values that fit, then reading, restores every selection |

## Left out

- The web, UBI, update, dispatch and stock-boot commands (`src/u-boot/cmd/ursus*.c`): device I/O around the parts modelled here.
- LZMA, CRC-32, SHA-256 and signatures: foreign algorithms; the validator's decompression and board strings are not modelled.
- libfdt's own checks of a device tree: the model starts from the tags it can read; a property whose name does not resolve is an error of `fdt_find_regions()` and excluded for `fdt_next_region()`, which would follow a null string.
- The node offset that `fdt_next_region()` passes to its callback: the callback of the model depends on the path or the property name only.
- Device trees, packages and buffers of 2^31 bytes and more, where the C offsets would not fit `int`.
- FdtFind.FindRegions: with too few slots the count is only bounded from below, because runs that are not stored are not merged either, so it depends on where the slots end; callers only compare it with the number of slots.
- FdtState.RegionState.AddRegion: one slot and a region list, which is what `fdt_first_region()` sets up, because no caller asks for more.
- FdtState.RegionState.NextRegion: the state after an error is not stated, because no call follows one.
- FdtState.RegionState.FirstRegion: likewise.
- AbSlots.Device.Store: partitions whose block size does not divide the offset are left out.
- AbSlots.Device.SelectSlot: reads that fail are left out; a call then returns their error before it does anything.
- BootOrder.SetupOrder: without a configured order; `BootOrder.ConfiguredOrder` has the other branch.
- BootScan.Iter.SetupIter: without a label and a configured order of bootdevs, which add side cases to the iterator without a stronger theorem.
- BootScan.Iter.PrepareBootdev: probe results do not change during a scan, so a bootdev that was found can be probed again.
- BootScan.Iter.IterIncr: without labels, BOOTFLOWIF_SINGLE_* flags and dropped bootmeths, and without bootdevs that set another partition limit.
- BootScan.Iter.ScanFirst: without a given device or label.
- Calls of `bootflow_scan_next()` after it returned -ENODEV: the callers stop there.
- FipRepack.RebuildMf2: starts from the compressed payload, because compression is outside of the model.
- FipRepack.RebuildRecovery: likewise, without patching the decoded payload.
- Bootconfig.AddParameters: a magic so close to the start that the parameters do not reach from the presumed payload to the section is left out, because the length of the section would then wrap around to nearly 2^64.
- Cmos.ReadMenu: the number is unbounded, while the code keeps it in an `int`; the two agree for values that fit 31 bits.
- RTC reads and writes that fail, and the byte range that is printed.
- Address translation on ISA buses, and device trees that list fewer address cells than the bus counts.
- Source-text patch scripts, profiles, Kconfig merging, user interface, network, EFI and other boot methods: string replacement, file I/O and thin wrappers.
