# A Dafny model of OWL's race-consequence analyses

OWL takes the data races that a race detector reports and asks what each race
can lead to. Two converters turn the detector's text report into the input of
the LLVM passes:

- `tsanOutputParser.py` handles ThreadSanitizer reports;
- `valgrindOutputParser.py` handles Helgrind reports.

Each converter writes one `.race` file per race, holding one line per racing
side in the form `function (file:line)`.

Four LLVM passes then work on the program's IR:

- **Inst2Int** numbers every instruction. It also indexes the instructions by
  source location, keyed by file base name and line.
- **DOL** (DangerOpLabel) labels the dangerous sites: pointer dereferences
  (every located `getelementptr`) and calls to listed dangerous
  functions. Indirect calls are resolved by type comparison.
- **ConAnalysis** does three things:
  - it replays a race report as a call stack;
  - it runs a forward, inter-procedural taint walk from the racing
    instruction;
  - it counts the dangerous sites whose execution is control dependent on a
    tainted branch.
  It finds those sites in two ways: across calls, by correlating tainted calls
  with tainted branches; and within a function, by looking for a dominating
  block with a tainted branch whose walk meets the taint trace.
- **SyncLoopAnalysis** looks for ad-hoc synchronisation. A racy read is one if
  its taint reaches the exiting branch of a loop, and the racing write stores a
  constant.

The project models all six of these, each file in the form of its source:

- a pass whose fields are updated in place is a `class` whose methods modify
  those fields;
- the loops of the source are `while` loops with invariants;
- most methods are proved against a specification function, and the lemmas
  beside that function state what the source promises;
- the dominator worklist is specified by the fixpoint it reaches and the
  invariant it keeps;
- the recursive taint walk of ConAnalysis is specified case by case: `Step`
  and `VisitCall` state what each kind of instruction, and each kind of
  callee, does to the state, while `Walk`, `Intra` and `FollowCall` are
  specified only by the invariants they keep (see "Left out");
- the converters are modelled as a per-line step function plus the loop that
  drives it.

The modules are:

- `ir.dfy`: the IR the passes read. It covers modules, functions, blocks,
  instructions, debug locations, the walk order `inst_begin(F)..inst_end(F)`,
  `getCalledFunction` and the base name used for source locations.
- `taint.dfy`: GEP element descriptors (`GepIdx`) and the set/trace pair that
  `add2CrptList` keeps in step.
- `race_input.dfy`: a `.race` file as the `sscanf` results of its lines.
- `inst2int.dfy`: the Inst2Int pass.
- `con_spec.dfy`, `con_seeds.dfy`, `con_sites.dfy` and `dominators.dfy`: the
  specification functions and lemmas of ConAnalysis. They cover the cycle
  guard, the correlation of tainted calls with tainted branches, argument
  mapping, call-stack seeding, the dominator worklist and site counting.
- `con_analysis.dfy`: the ConAnalysis pass itself.
- `danger_op_label.dfy`: the DOL pass.
- `sync_init.dfy`, `sync_spec.dfy` and `sync_loop.dfy`: SyncLoopAnalysis.
- `report_lines.dfy`, `tsan_parser.dfy` and `valgrind_parser.dfy`: the two
  report converters.

## Model

| member | source | states |
|---|---|---|
| IR.BodyMembers | lib/Misc/Inst2Int/Inst2Int.cpp:38 | an instruction is met by the walk over function `f` exactly when its block belongs to `f` |
| IR.CalledFunction | lib/ConAnal/ConAnalysis.cpp:529-531 | a call has a static callee exactly when its called operand is a function, and that callee is a function of the module |
| IR.Basename | lib/Misc/Inst2Int/Inst2Int.cpp:44 | the base name is never longer than the path |
| IR.BasenameShape | lib/Misc/Inst2Int/Inst2Int.cpp:44 | the base name is a separator-free suffix of the path; it is preceded by a `/` or `\` whenever it is not the whole path |
| IR.BasenameAppend | lib/ConAnal/ConAnalysis.cpp:477 | appending separator-free text to a path appends it to the base name |
| IR.BasenameOfJoin | lib/ConAnal/ConAnalysis.cpp:477 | `dir/name` has base name `name` whatever the directory, so the source locations of the DOL labels and of the walk agree |
| Taint.Descriptor | lib/ConAnal/ConAnalysis.cpp:391-405 | a GEP descriptor exists exactly for two or three operands; it then selects the GEP's own index operands and is the only descriptor that does |
| Taint.DescriptorPrecise | lib/ConAnal/ConAnalysis.cpp:612-636 | a recorded descriptor selects another GEP exactly when that GEP has the same arity and the same index operands |
| Taint.SyncedSize | lib/ConAnal/ConAnalysis.cpp:573-586 | while the taint set and the ordered trace stay in step, the set's size (which the memo compares) is the trace's length |
| Taint.SyncedAdd | lib/ConAnal/ConAnalysis.cpp:120-127 | adding an untainted value to both the set and the trace keeps them in step and grows the set by one |
| RaceInput.Entries | lib/ConAnal/ConAnalysis.cpp:137-149 | one entry per line, in file order, each being the line's scanned triple |
| RaceInput.LineAt | lib/SyncLoop/SyncLoopAnalysis.cpp:91-101 | reading the `i`-th line yields that line, or a line that fails to scan when the file is shorter |
| Inst2Int.NumberedIds | lib/Misc/Inst2Int/Inst2Int.cpp:35-39 | numbering gives an id to exactly the old keys and the walked instructions; a walked instruction's id minus the start counter is a position where it occurs; other ids are unchanged |
| Inst2Int.NumberedAt | lib/Misc/Inst2Int/Inst2Int.cpp:39 | in a walk without repetitions, the `k`-th instruction gets id `start + k` |
| Inst2Int.NumberedDistinct | lib/Misc/Inst2Int/Inst2Int.cpp:39 | distinct ids below the counter stay distinct, and below the advanced counter, after numbering |
| Inst2Int.OnLineMembers | lib/Misc/Inst2Int/Inst2Int.cpp:40-45 | an instruction is listed under a location exactly when it was walked and carries that location |
| Inst2Int.IndexedLookup | lib/Misc/Inst2Int/Inst2Int.cpp:40-45 | indexing extends each key's list by the walked instructions at that location, in walk order; a key is created only when such an instruction exists |
| Inst2Int.CreateMapsValid | lib/Misc/Inst2Int/Inst2Int.cpp:33-59 | from a valid state, `createMaps` yields ids that are at least 1, below the counter and distinct, and every indexed instruction has an id |
| Inst2Int.Inst2IntPass.constructor | include/ConAnal/Inst2Int.h:78-80 | both maps are empty and the counter starts at 1 |
| Inst2Int.Inst2IntPass.ClearClassDataMember | lib/Misc/Inst2Int/Inst2Int.cpp:28-31 | both maps are emptied and the counter is kept |
| Inst2Int.Inst2IntPass.Visit | lib/Misc/Inst2Int/Inst2Int.cpp:39-55 | the instruction takes the counter, which advances by one; a located instruction is appended under its location; the flag says whether it has a location |
| Inst2Int.Inst2IntPass.VisitAll | lib/Misc/Inst2Int/Inst2Int.cpp:38-56 | the loop over one function's instructions extends the numbering, the index and the all-located flag from the walked prefix to the prefix plus the body |
| Inst2Int.Inst2IntPass.VisitFunction | lib/Misc/Inst2Int/Inst2Int.cpp:35-57 | walking function `f` extends the state for the first `f` functions to the first `f + 1` |
| Inst2Int.Inst2IntPass.NumberModule | lib/Misc/Inst2Int/Inst2Int.cpp:35-57 | after the function loop, the numbering and the index cover every instruction in walk order, and the flag is set exactly when all have locations |
| Inst2Int.Inst2IntPass.CreateMaps | lib/Misc/Inst2Int/Inst2Int.cpp:33-59 | `createMaps` numbers every instruction from the counter in walk order, indexes it by location and returns false exactly when some instruction has no debug location; validity is kept |
| Inst2Int.Inst2IntPass.Inst2IntMap | lib/Misc/Inst2Int/Inst2Int.cpp:119-121 | every id is at least 1 and below the counter, and no two instructions share one |
| Inst2Int.Inst2IntPass.FileLine2InstListMap | lib/Misc/Inst2Int/Inst2Int.cpp:123-125 | every instruction listed under a location has an id |
| ConSpec.PushShrinks | lib/ConAnal/ConAnalysis.cpp:541-549 | pushing a callee whose name is not on the stack leaves one name fewer off the stack, so nested calls are bounded by the number of distinct function names |
| ConSpec.PushNames | lib/ConAnal/ConAnalysis.cpp:590 | pushing callee `g` adds exactly `g`'s name to the names on the stack |
| ConSpec.ScanBranchesMembers | lib/ConAnal/ConAnalysis.cpp:488-501 | scanning the tainted branches for one call adds exactly the branches correlated with that call, without repeating any |
| ConSpec.CtrlDepBranchesMembers | lib/ConAnal/ConAnalysis.cpp:484-503 | the branches recorded for a site are exactly the tainted branches that influence some tainted call in their own function, each listed once |
| ConSpec.OccurrencesShape | lib/ConAnal/ConAnalysis.cpp:787-791 | the inner loop collects only copies of `x`, none exactly when `x` is absent, and exactly one over a list without repetitions |
| ConSpec.FeasiblePathMembers | lib/ConAnal/ConAnalysis.cpp:783-794 | an entry is on the feasible path exactly when it is both in the taint trace and in the dominator walk |
| ConSpec.FeasiblePathInTraceOrder | lib/ConAnal/ConAnalysis.cpp:783-794 | over a walk without repetitions, the feasible path is the trace filtered by the walk, in trace order |
| ConSpec.ElementMatchIff | lib/ConAnal/ConAnalysis.cpp:612-637 | a GEP is matched exactly when its own descriptor is listed under its base; a GEP of any other arity never is |
| ConSpec.ArgsTraceMembers | lib/ConAnal/ConAnalysis.cpp:429-443 | argument mapping only extends the trace, and adds exactly the formals whose actual is tainted |
| ConSpec.ArgsPtrEntries | lib/ConAnal/ConAnalysis.cpp:444-448 | a formal whose actual has descriptors inherits that actual's list; every other entry is unchanged |
| ConSpec.ArgsTraceExtends | lib/ConAnal/ConAnalysis.cpp:429-450 | argument mapping never removes or reorders trace entries |
| ConSeeds.SiteFrame | lib/ConAnal/ConAnalysis.cpp:199-201 | an instruction's frame names its own function and the instruction |
| ConSeeds.FirstWithId | lib/ConAnal/ConAnalysis.cpp:268-277 | the instruction found for a manual id is one the iteration visits |
| ConSeeds.LaterLineScan | lib/ConAnal/ConAnalysis.cpp:206-224 | on a later report line, the head and the seeded set are untouched; the body gains exactly the first non-intrinsic call at or after the scan position, and nothing when there is none |
| ConSeeds.LaterInst | lib/ConAnal/ConAnalysis.cpp:185-260 | on a later line only a non-intrinsic call acts: it is appended to the body and stops the scan |
| ConSeeds.LaterLinesOnlyCalls | lib/ConAnal/ConAnalysis.cpp:156-263 | later lines never touch the head or the seeded set, add at most one body frame each, and add only non-intrinsic call frames |
| ConSeeds.SeedFromFails | lib/ConAnal/ConAnalysis.cpp:160-180 | the replay aborts exactly when the first line's location is unknown, or some known location has an empty instruction list |
| ConSeeds.ScanFromFrames | lib/ConAnal/ConAnalysis.cpp:185-260 | the scan only appends frames of listed instructions, and a call never becomes a head candidate |
| ConSeeds.SeedFromFrames | lib/ConAnal/ConAnalysis.cpp:152-263 | every head and body frame the replay builds names an instruction of the module |
| ConSeeds.FirstWithIdIff | lib/ConAnal/ConAnalysis.cpp:268-270 | with distinct ids and an order covering the map, the search for id `v` finds `i` exactly when `i` carries `v` |
| ConSeeds.OverrideHeadFrames | lib/ConAnal/ConAnalysis.cpp:266-279 | the override keeps the head made of instruction frames |
| ConSeeds.OverrideHeadIff | lib/ConAnal/ConAnalysis.cpp:266-279 | a nonzero manual id carried by some instruction makes that instruction's frame the only head candidate; otherwise the head is kept |
| ConSites.UpTo | lib/ConAnal/ConAnalysis.cpp:750-757 | the walked part of a block is never longer than the block |
| ConSites.UpToShape | lib/ConAnal/ConAnalysis.cpp:750-757 | the walk of a block is a prefix that ends at the site when the block holds it, and is the whole block otherwise |
| ConSites.CountSitesBound | lib/ConAnal/ConAnalysis.cpp:714-781 | the count never exceeds the number of listed sites; it fails exactly when some site's location lists no instruction |
| ConSites.CountSitesStep | lib/ConAnal/ConAnalysis.cpp:714-772 | one more site adds one to the count exactly when that site is confirmed |
| ConSites.CountSitesFrame | lib/ConAnal/ConAnalysis.cpp:727-732 | caching other functions' dominators never changes the count |
| ConSites.CacheAdd | lib/ConAnal/ConAnalysis.cpp:727-729 | storing a solved dominator map keeps the cache valid |
| ConSites.GuardMakesPathFeasible | lib/ConAnal/ConAnalysis.cpp:749-760 | a tainted value met by the dominator walk puts a non-empty feasible path behind the branch test |
| ConSites.InterCtrlDepCount | lib/ConAnal/ConAnalysis.cpp:693-706 | a map whose keys are labelled sites has at most one entry per labelled site, so the cross-function count of a candidate is at most the number of labelled sites |
| Dominators.Meet | lib/ConAnal/ConAnalysis.cpp:826-837 | a block is in the meet exactly when it is in the set of each of the first `n` predecessors |
| Dominators.MeetMonotone | lib/ConAnal/ConAnalysis.cpp:826-837 | shrinking the predecessors' sets shrinks the meet |
| Dominators.IntersectPreds | lib/ConAnal/ConAnalysis.cpp:826-837 | the intersection loop yields exactly the blocks in every predecessor's set |
| Dominators.InitialDominators | lib/ConAnal/ConAnalysis.cpp:803-817 | the initial assignment is all blocks for a block with a predecessor, the block alone for one without, and the entry alone for the entry; it satisfies the shape and the dataflow inequality |
| Dominators.InitialSettled | lib/ConAnal/ConAnalysis.cpp:803-821 | before the loop, every block outside the initial queue (the entry's successors) already satisfies the dataflow equation |
| Dominators.TransferFrame | lib/ConAnal/ConAnalysis.cpp:826-837 | changing the set of a block that is not a predecessor of `z` leaves `z`'s recomputed value unchanged |
| Dominators.SettledAfterSkip | lib/ConAnal/ConAnalysis.cpp:823-840 | taking an unchanged block off the queue keeps every unqueued block at the dataflow equation |
| Dominators.SettledAfterUpdate | lib/ConAnal/ConAnalysis.cpp:839-849 | storing a changed set and queueing its successors keeps every unqueued block at the dataflow equation |
| Dominators.UpdateKeeps | lib/ConAnal/ConAnalysis.cpp:838-841 | replacing a changed set by its recomputed value keeps the invariants and lowers the total weight |
| Dominators.WeightDecreases | lib/ConAnal/ConAnalysis.cpp:840-841 | a strictly smaller set for one block lowers the total weight |
| Dominators.NeighboursInFunc | lib/ConAnal/ConAnalysis.cpp:826-849 | the predecessors and successors the worklist visits are blocks of the same function |
| Dominators.EntryStable | lib/ConAnal/ConAnalysis.cpp:819-821 | a queued entry block that is its own predecessor never changes its set |
| Dominators.EnqueueSuccessors | lib/ConAnal/ConAnalysis.cpp:842-849 | every successor other than the entry ends up queued, the old queue is kept as a prefix, and the queue stays within the function |
| Dominators.VisitBlock | lib/ConAnal/ConAnalysis.cpp:823-851 | one worklist turn keeps the invariants (every unqueued block at the dataflow equation among them) and strictly lowers the (weight, queue length) pair |
| Dominators.StoreAndEnqueue | lib/ConAnal/ConAnalysis.cpp:839-849 | the changed branch stores the recomputed set, lowers the weight and keeps the invariants |
| Dominators.ComputeDominators | lib/ConAnal/ConAnalysis.cpp:800-852 | the loop terminates; the entry is dominated by itself alone, every block by itself, every set holds blocks of the function only, anything dominating all predecessors of a block dominates it, and at exit each block satisfies `d[z] == {z} + the meet of its predecessors' sets` exactly |
| Dominators.DiamondDominators | lib/ConAnal/ConAnalysis.cpp:800-852 | on a diamond CFG (0 to 1 and 2, both to 3), the shape and the exact dataflow equation force the dominator relation: `d[3] == {0, 3}` |
| Dominators.DiamondExample | lib/ConAnal/ConAnalysis.cpp:800-852 | the dominator computation on the diamond CFG returns `{0}`, `{0, 1}`, `{0, 2}` and `{0, 3}` |
| ConAnalysis.ConAnalysisPass.constructor | include/ConAnal/ConAnalysis.h:86-98 | every table of the pass starts empty |
| ConAnalysis.ConAnalysisPass.ParseInput | lib/ConAnal/ConAnalysis.cpp:129-150 | an unopenable report, or any line that fails to scan, aborts; otherwise the entries in file order |
| ConAnalysis.ConAnalysisPass.Add2CrptList | lib/ConAnal/ConAnalysis.cpp:120-127 | the value joins the set, and is appended to the trace exactly when it was absent, which is what the result says |
| ConAnalysis.ConAnalysisPass.AddDescriptor | lib/ConAnal/ConAnalysis.cpp:391-408 | the descriptor is appended under the key operand; an arity other than 2 or 3 aborts and changes nothing |
| ConAnalysis.ConAnalysisPass.SeedInstruction | lib/ConAnal/ConAnalysis.cpp:378-417 | the walk starts at the first occurrence of the stack instruction, or just after it for a call; a non-call is tainted once and, for a GEP, its descriptor is recorded under operand 0; a missing instruction aborts |
| ConAnalysis.ConAnalysisPass.MapArguments | lib/ConAnal/ConAnalysis.cpp:429-450 | when nothing is left to walk, the first corrupted formal returns true at once; otherwise formals with tainted actuals are tainted and inherit their actuals' descriptors |
| ConAnalysis.ConAnalysisPass.Influenced | lib/ConAnal/ConAnalysis.cpp:455-469 | true exactly when the function has a graph and some earlier local tainted branch influences the instruction's block |
| ConAnalysis.ConAnalysisPass.NameOnStack | lib/ConAnal/ConAnalysis.cpp:541-548 | true exactly when a frame of that name is on the live stack |
| ConAnalysis.ConAnalysisPass.ResolveCallee | lib/ConAnal/ConAnalysis.cpp:529-549 | a call is followed exactly when its callee is static, not intrinsic and not already on the stack by name |
| ConAnalysis.ConAnalysisPass.CorruptedParams | lib/ConAnal/ConAnalysis.cpp:550-564 | exactly the operand positions holding a tainted, or descriptor-carrying, instruction; the flag says whether there is one, and it is set exactly when some operand is such an instruction |
| ConAnalysis.ConAnalysisPass.ScanForCall | lib/ConAnal/ConAnalysis.cpp:488-501 | the inner loop computes the branches correlated with one tainted call |
| ConAnalysis.ConAnalysisPass.CollectCtrlDepBrs | lib/ConAnal/ConAnalysis.cpp:485-502 | the nested loops compute exactly the correlated branches, once each |
| ConAnalysis.ConAnalysisPass.EnterCallee | lib/ConAnal/ConAnalysis.cpp:573-586 | a callee whose last visit entered and left at the current taint size is skipped; a first visit records the entry size; a visit that added nothing has its entry raised |
| ConAnalysis.ConAnalysisPass.VisitGep | lib/ConAnal/ConAnalysis.cpp:612-663 | an element match taints the GEP without new descriptors; otherwise a tainted operand taints a fresh GEP and records its descriptor under operand 1, and a bad arity aborts |
| ConAnalysis.ConAnalysisPass.MatchDescriptors | lib/ConAnal/ConAnalysis.cpp:613-637 | the GEP is tainted exactly when a recorded descriptor selects its element |
| ConAnalysis.ConAnalysisPass.TaintWholeGep | lib/ConAnal/ConAnalysis.cpp:638-663 | a tainted operand taints an untainted GEP and records its descriptor under operand 1; an arity other than 2 or 3 aborts |
| ConAnalysis.ConAnalysisPass.VisitOther | lib/ConAnal/ConAnalysis.cpp:664-688 | the instruction is newly tainted exactly when an operand is tainted and it is not; a store also taints its address; a branch is listed once globally and appended locally |
| ConAnalysis.ConAnalysisPass.RecordCtrlDep | lib/ConAnal/ConAnalysis.cpp:474-526 | under a caller's control dependence with no local influence, a labelled pointer site, or else a labelled function site, records exactly the correlated branches |
| ConAnalysis.ConAnalysisPass.LocalDeps | lib/ConAnal/ConAnalysis.cpp:452-526 | reports local influence exactly as defined, and leaves the cross-function maps exactly as the dangerous-site record defines for that influence and the inherited control dependence |
| ConAnalysis.ConAnalysisPass.GepStep | lib/ConAnal/ConAnalysis.cpp:612-663 | the walk's GEP case has exactly the GEP visit's effect on the trace and the pointer table, and keeps the taint state consistent |
| ConAnalysis.ConAnalysisPass.OtherStep | lib/ConAnal/ConAnalysis.cpp:664-688 | the walk's generic case has exactly the generic visit's effect on the trace, the branch lists and the return flag |
| ConAnalysis.ConAnalysisPass.CallStep | lib/ConAnal/ConAnalysis.cpp:452-611 | at a call, after the record: a callee that cannot be followed changes nothing but the record; a followed, non-memoised callee under local or inherited control dependence lists the call |
| ConAnalysis.ConAnalysisPass.PlainStep | lib/ConAnal/ConAnalysis.cpp:452-689 | outside a call, the record and then exactly the GEP visit's or the generic visit's effect, with the call list and the pointer table (outside a GEP) unchanged |
| ConAnalysis.ConAnalysisPass.Step | lib/ConAnal/ConAnalysis.cpp:452-689 | one step keeps the pass consistent and only grows the trace and the branch and call lists; outside a call it leaves stack, memo and call list alone and has exactly the record's effect plus the GEP visit's or the generic visit's; a call that cannot be followed changes nothing but the record, and a followed, non-memoised call under local or inherited control dependence is listed; the flag is set exactly as the generic visit sets it, and never at a call or a GEP |
| ConAnalysis.ConAnalysisPass.Walk | lib/ConAnal/ConAnalysis.cpp:452-689 | the forward walk keeps the pass consistent, restores the stack, and only grows the trace and the branch and call lists |
| ConAnalysis.ConAnalysisPass.Intra | lib/ConAnal/ConAnalysis.cpp:371-691 | a stack instruction missing from the function aborts; the walk restores the stack, only grows the lists, and returns true only after new taint or a corrupted formal |
| ConAnalysis.ConAnalysisPass.VisitCall | lib/ConAnal/ConAnalysis.cpp:528-611 | following a call terminates (by the cycle guard), restores the stack and only grows the lists; an unresolved, intrinsic or on-stack callee changes nothing; a body-less callee with a tainted actual taints the call and leaves the memo, the stack and the call list alone; a memo hit changes nothing; otherwise, under control dependence the call is listed, and the callee's exit size is recorded |
| ConAnalysis.ConAnalysisPass.CallTarget | lib/ConAnal/ConAnalysis.cpp:550-611 | for a resolved callee: the body-less pass-through, the memo skip, or the walk, with the effects listed for `VisitCall` |
| ConAnalysis.ConAnalysisPass.EnterOrSkip | lib/ConAnal/ConAnalysis.cpp:567-611 | a memo hit (entered and left at the current taint size) changes nothing; otherwise the call is listed under control dependence and the callee's exit size is recorded |
| ConAnalysis.ConAnalysisPass.FollowCall | lib/ConAnal/ConAnalysis.cpp:590-611 | push, walk and pop restore the stack and only grow the lists |
| ConAnalysis.ConAnalysisPass.PushCallee | lib/ConAnal/ConAnalysis.cpp:590-602 | the callee frame is pushed, leaving less room on the stack; under control dependence the call is listed once |
| ConAnalysis.ConAnalysisPass.ReturnFromCallee | lib/ConAnal/ConAnalysis.cpp:605-611 | the call is tainted exactly when the callee reported taint; its exit size is recorded and the frame popped |
| ConAnalysis.ConAnalysisPass.AnySeeded | lib/ConAnal/ConAnalysis.cpp:190-196 | true exactly when some operand is already seeded |
| ConAnalysis.ConAnalysisPass.OperandFlags | lib/ConAnal/ConAnalysis.cpp:229-248 | the four operand flags, each in both directions; an already-seeded operand also marks the instruction seeded |
| ConAnalysis.ConAnalysisPass.ScanStep | lib/ConAnal/ConAnalysis.cpp:185-260 | one turn of the per-line instruction loop performs exactly one step of the seeding scan |
| ConAnalysis.ConAnalysisPass.ScanList | lib/ConAnal/ConAnalysis.cpp:182-261 | the instruction loop of one report line performs the seeding scan over its list |
| ConAnalysis.ConAnalysisPass.SeedLineStep | lib/ConAnal/ConAnalysis.cpp:157-262 | one report line succeeds exactly when the specification's step does, and reaches its state |
| ConAnalysis.ConAnalysisPass.InitializeCallStack | lib/ConAnal/ConAnalysis.cpp:152-281 | the replay succeeds exactly when the specification's does; body and seeded set are its result, and the head is its result after the manual override |
| ConAnalysis.ConAnalysisPass.WalkBlock | lib/ConAnal/ConAnalysis.cpp:750-757 | the walked part of one dominating block, and whether it holds a tainted branch |
| ConAnalysis.ConAnalysisPass.WalkDominators | lib/ConAnal/ConAnalysis.cpp:746-758 | the flag is set exactly when a dominating block's walked part holds a tainted branch, and then the walk meets the taint |
| ConAnalysis.ConAnalysisPass.Occur | lib/ConAnal/ConAnalysis.cpp:787-791 | the inner loop collects every occurrence of the entry in the walk |
| ConAnalysis.ConAnalysisPass.GetFeasiblePath | lib/ConAnal/ConAnalysis.cpp:783-798 | the trace entries met by the walk, in trace order; true exactly when there are any |
| ConAnalysis.ConAnalysisPass.DominatorsOf | lib/ConAnal/ConAnalysis.cpp:727-732 | the function's dominators come from the cache, or are computed and cached; other entries are kept |
| ConAnalysis.ConAnalysisPass.ConfirmSite | lib/ConAnal/ConAnalysis.cpp:715-772 | one listed site aborts exactly when the specification fails, and is otherwise confirmed exactly as the specification says; a reached function ends up cached |
| ConAnalysis.ConAnalysisPass.CountStep | lib/ConAnal/ConAnalysis.cpp:714-779 | one loop turn extends the count from `k` sites to `k + 1` |
| ConAnalysis.ConAnalysisPass.GetDominators | lib/ConAnal/ConAnalysis.cpp:708-781 | the count of confirmed sites, which aborts exactly when the specification fails |
| ConAnalysis.ConAnalysisPass.CorruptedFuncs | lib/ConAnal/ConAnalysis.cpp:335-341 | exactly the functions of the tainted instructions |
| ConAnalysis.ConAnalysisPass.StartCandidate | lib/ConAnal/ConAnalysis.cpp:307-313 | the stack is the candidate in front of the whole body; the set, the trace, the pointer map and the memo are cleared |
| ConAnalysis.ConAnalysisPass.ReplayFrame | lib/ConAnal/ConAnalysis.cpp:316-328 | the front frame is analysed and popped; the next frame's call is tainted when the front function reported taint; the trace only grows |
| ConAnalysis.ConAnalysisPass.ReplayStack | lib/ConAnal/ConAnalysis.cpp:315-329 | the replay loop empties the stack, with one walk outcome per frame; for every frame whose walk reported taint, the call of the frame after it ends up tainted |
| ConAnalysis.ConAnalysisPass.RunCandidate | lib/ConAnal/ConAnalysis.cpp:304-366 | the candidate's stack is the candidate before the body; after its replay, every body frame below a frame that reported taint has its call tainted; each enabled count is the number of cross-function results (at most one per labelled site) plus the confirmed sites over the functions of the taint |
| ConAnalysis.ConAnalysisPass.CountCandidate | lib/ConAnal/ConAnalysis.cpp:330-366 | the report carries the trace and, per enabled switch, the cross-function results plus the confirmed sites, computed from the state the replay left; the cross-function part is at most one per labelled site |
| ConAnalysis.ConAnalysisPass.GetCorruptedIRs | lib/ConAnal/ConAnalysis.cpp:301-369 | an empty head fails the assertion; otherwise there is one report per head candidate, and report `k` is the trace and the counts computed from the state candidate `k` left, the last of which is the pass's final state |
| ConAnalysis.ConAnalysisPass.ClearClassDataMember | lib/ConAnal/ConAnalysis.cpp:46-56 | the taint state, the stacks and the memo are emptied; the branch lists, cross-function results and dominator cache are not |
| ConAnalysis.ConAnalysisPass.ReadReport | lib/ConAnal/ConAnalysis.cpp:283-296 | succeeds exactly when the report opens, every line scans and replaying its entries succeeds; a missing or malformed report aborts; on success the stacks are the replay of its entries, with the manual override applied |
| ConAnalysis.ConAnalysisPass.RunOnModule | lib/ConAnal/ConAnalysis.cpp:283-299 | the replayed stacks as above, a non-empty head, and one report per head candidate, each computed from the state its candidate left |
| DangerOpLabel.CompareIndirectCall | lib/DOL/DangerOpLabel.cpp:36-64 | a missing call site or function type aborts; otherwise true exactly when the arity, the return type id and every parameter type id match, and never for a different arity |
| DangerOpLabel.IndirectCandidates | lib/DOL/DangerOpLabel.cpp:95-108 | the loop over the candidate set collects exactly the names of signature-matching functions the called value may alias |
| DangerOpLabel.PtrSites | lib/DOL/DangerOpLabel.cpp:70-88 | one site outcome per walked instruction |
| DangerOpLabel.FuncSites | lib/DOL/DangerOpLabel.cpp:89-138 | one site outcome per walked instruction |
| DangerOpLabel.GatheredMembers | lib/DOL/DangerOpLabel.cpp:81-87 | an entry is listed exactly when it was listed before or some visited site carries it |
| DangerOpLabel.GatheredNoDup | lib/DOL/DangerOpLabel.cpp:81-87 | the `std::find` guard keeps the list free of repetitions |
| DangerOpLabel.GatheredPrepends | lib/DOL/DangerOpLabel.cpp:85 | new entries go to the front; the earlier list is what follows them |
| DangerOpLabel.GatheredAppend | lib/DOL/DangerOpLabel.cpp:67-70 | labelling two runs of sites is labelling the first and then the second from where it left off |
| DangerOpLabel.KeysMembers | lib/DOL/DangerOpLabel.cpp:79-86 | a key is in the map exactly when some listed statement has that file and line |
| DangerOpLabel.KeysPushNew | lib/DOL/DangerOpLabel.cpp:81-87 | labelling one site adds to the map exactly the key of the entry it adds to the list |
| DangerOpLabel.KeysGrow | lib/DOL/DangerOpLabel.cpp:79-86 | labelling never loses a key |
| DangerOpLabel.PtrSitesMembers | lib/DOL/DangerOpLabel.cpp:70-88 | a dereference entry occurs among a function's sites exactly when one of its instructions produces it |
| DangerOpLabel.FuncSitesMembers | lib/DOL/DangerOpLabel.cpp:89-138 | a dangerous-call entry occurs among a function's sites exactly when one of its instructions produces it |
| DangerOpLabel.ModulePtrSitesMembers | lib/DOL/DangerOpLabel.cpp:67-88 | a dereference entry occurs in the walk of the first `n` functions exactly when an instruction of one of them produces it |
| DangerOpLabel.ModuleFuncSitesMembers | lib/DOL/DangerOpLabel.cpp:67-139 | a dangerous-call entry occurs in the walk of the first `n` functions exactly when an instruction of one of them produces it |
| DangerOpLabel.DanPtrOpsExact | lib/DOL/DangerOpLabel.cpp:66-88 | after the walk, a statement is a dereference site exactly when some located GEP of a function carries that function's name, file base name and line; none is listed twice |
| DangerOpLabel.DanFuncOpsExact | lib/DOL/DangerOpLabel.cpp:89-139 | after the walk, a statement is a dangerous-call site exactly when some located labelled call carries it; none is listed twice |
| DangerOpLabel.LabelledCallIff | lib/DOL/DangerOpLabel.cpp:89-119 | a call or invoke is labelled exactly when its callee is not an `llvm.` function and is a listed dangerous function, or, for an indirect call, some signature-matching candidate it may alias is |
| DangerOpLabel.AllFuncs | lib/DOL/DangerOpLabel.cpp:172-176 | the candidate set is exactly the functions whose names do not start with `llvm.` |
| DangerOpLabel.FirstTokenShape | lib/DOL/DangerOpLabel.cpp:157 | `%s` stores the first white-space-delimited word: blanks before it, none inside it, a blank or the end after it, and empty exactly for a blank line |
| DangerOpLabel.ListedNamesMembers | lib/DOL/DangerOpLabel.cpp:155-160 | a name is listed exactly when it is the first word of some line |
| DangerOpLabel.DOL.constructor | include/ConAnal/DangerOpLabel.h:50-56 | all lists, maps and the name set start empty |
| DangerOpLabel.DOL.ClearClassDataMember | lib/DOL/DangerOpLabel.cpp:30-34 | the two lists and the name set are emptied; the two maps are kept |
| DangerOpLabel.DOL.ParseInput | lib/DOL/DangerOpLabel.cpp:145-162 | aborts exactly when the list cannot be opened; otherwise every line's first word joins the name set, and the set's size is returned |
| DangerOpLabel.DOL.FindDangerousOp | lib/DOL/DangerOpLabel.cpp:66-143 | both lists become the sites of the whole module gathered in walk order, and each map gains exactly the keys of its list |
| DangerOpLabel.DOL.LabelNextFunction | lib/DOL/DangerOpLabel.cpp:67-141 | one turn of the function loop moves the state from the first `f` functions to the first `f + 1` |
| DangerOpLabel.DOL.LabelFunction | lib/DOL/DangerOpLabel.cpp:70-140 | the walk over one function gathers its sites into both lists, and each map gains the keys its list gains |
| DangerOpLabel.DOL.LabelInst | lib/DOL/DangerOpLabel.cpp:70-139 | one instruction moves the state from `body[..k]` to `body[..k + 1]` |
| DangerOpLabel.DOL.LabelPtrOp | lib/DOL/DangerOpLabel.cpp:71-88 | a new dereference entry goes to the front of the list and its key into the map |
| DangerOpLabel.DOL.LabelCallOp | lib/DOL/DangerOpLabel.cpp:119-137 | a new dangerous-call entry goes to the front of the list and its key into the map |
| DangerOpLabel.DOL.CallSite | lib/DOL/DangerOpLabel.cpp:89-128 | the entry the call case labels the instruction with, if any |
| DangerOpLabel.DOL.RunOnModule | lib/DOL/DangerOpLabel.cpp:164-183 | aborts exactly when the list cannot be opened; otherwise the name set is the listed names, and both lists are the sites of the module labelled against the non-`llvm.` candidates |
| SyncInit.FirstOverride | lib/SyncLoop/SyncLoopAnalysis.cpp:228-247 | the instruction the override stops at is one the iteration visits and has an id |
| SyncInit.SiteFramesOf | lib/SyncLoop/SyncLoopAnalysis.cpp:144-152 | one frame per listed instruction, in order, each naming its function and the instruction |
| SyncInit.WriteLineAll | lib/SyncLoop/SyncLoopAnalysis.cpp:144-152 | on the write line every listed instruction joins the write list, in order, and nothing else changes |
| SyncInit.ReadInst | lib/SyncLoop/SyncLoopAnalysis.cpp:153-219 | one instruction of the read line adds at most its own frame, only when it is not a call, and never touches the write list |
| SyncInit.ReadLineNoCalls | lib/SyncLoop/SyncLoopAnalysis.cpp:153-219 | on the read line the write list is untouched, the read list only grows, and every frame it gains names a listed non-call instruction |
| SyncInit.RacingLinesFail | lib/SyncLoop/SyncLoopAnalysis.cpp:117-143 | the replay aborts exactly when a read line's location is unknown, or some known location has an empty list; an unknown write location is skipped |
| SyncInit.FirstOverrideFirst | lib/SyncLoop/SyncLoopAnalysis.cpp:228-247 | the override picks the first instruction in iteration order carrying the write id or the read id; none exactly when no instruction carries either |
| SyncInit.OverrideAtMostOne | lib/SyncLoop/SyncLoopAnalysis.cpp:228-247 | at most one list is replaced, by a single frame carrying its id; nothing changes when no instruction carries either id |
| SyncInit.RacingFromFrames | lib/SyncLoop/SyncLoopAnalysis.cpp:144-219 | replaying a line only records frames of instructions of the module |
| SyncInit.RacingLinesFrames | lib/SyncLoop/SyncLoopAnalysis.cpp:112-222 | a successful replay only records frames of instructions of the module |
| SyncInit.OverriddenFrames | lib/SyncLoop/SyncLoopAnalysis.cpp:228-247 | the override only records frames of instructions of the module |
| SyncSpec.FirstIndex | lib/SyncLoop/SyncLoopAnalysis.cpp:295-305 | the position the seed search stops at holds the instruction, and no earlier one does |
| SyncSpec.Slots | lib/SyncLoop/SyncLoopAnalysis.cpp:429-467 | one outcome per read frame; the first frame is walked from the starting state and every later one from the cleared state |
| SyncSpec.AddOk | lib/SyncLoop/SyncLoopAnalysis.cpp:50-57 | `add2CrptList` keeps the state consistent, adds exactly the value, and appends it to the trace only when it is new |
| SyncSpec.GepSpecIff | lib/SyncLoop/SyncLoopAnalysis.cpp:332-385 | a GEP ends up tainted exactly when it was, a descriptor under its base selects its element, or an operand is tainted; it fails exactly when newly tainted with an arity other than two or three |
| SyncSpec.OtherSpecIff | lib/SyncLoop/SyncLoopAnalysis.cpp:386-409 | the instruction ends up tainted exactly when it was or an operand is; a new store taints its address; a new branch is listed globally and locally; the flag is set exactly on new taint |
| SyncSpec.StepGrows | lib/SyncLoop/SyncLoopAnalysis.cpp:320-409 | one step keeps the state consistent and only adds to it; an instruction influenced by a local tainted branch is tainted; the flag, once set, stays set |
| SyncSpec.StepOk | lib/SyncLoop/SyncLoopAnalysis.cpp:397-402 | the local branch list only gains instructions of the module |
| SyncSpec.WalkGrows | lib/SyncLoop/SyncLoopAnalysis.cpp:319-410 | the walk keeps the state consistent, only adds to it, and sets the flag only when the trace grows |
| SyncSpec.IntraSeeded | lib/SyncLoop/SyncLoopAnalysis.cpp:290-412 | an instruction outside the function fails the assertion; on success the read is tainted, nothing is lost, and a true result means the trace grew |
| SyncSpec.FirstHoldingIff | lib/SyncLoop/SyncLoopAnalysis.cpp:274-286 | the loop found holds the block and no loop before it does; none exactly when no loop holds it |
| SyncSpec.IterateLoopsPreOrder | lib/SyncLoop/SyncLoopAnalysis.cpp:271-288 | `iterateLoops` returns the first loop of the nest, in pre-order, that holds the block |
| SyncSpec.FirstInPreOrder | lib/SyncLoop/SyncLoopAnalysis.cpp:262-266 | searching the top-level loops in turn is a pre-order search of all of them |
| SyncSpec.CheckLoopFirst | lib/SyncLoop/SyncLoopAnalysis.cpp:251-269 | `checkLoop` returns the first loop holding the block, over the defined functions in module order and each nest in pre-order |
| SyncSpec.FirstExitIff | lib/SyncLoop/SyncLoopAnalysis.cpp:433-461 | a detection is the first trace entry that is a compare or binary operator in an exiting block of the loop; none exactly when no entry is |
| SyncSpec.CollectIff | lib/SyncLoop/SyncLoopAnalysis.cpp:429-467 | the read loop succeeds exactly when every turn does, and then yields each turn's outcome at its own position |
| SyncSpec.SlotDetects | lib/SyncLoop/SyncLoopAnalysis.cpp:429-461 | a detection names a compare or binary operator, in an exiting block of the loop, that the frame's walk tainted |
| SyncLoop.SyncLoopPass.constructor | include/ConAnal/SyncLoopAnalysis.h:53-86 | every list and set starts empty |
| SyncLoop.SyncLoopPass.ClearClassDataMember | lib/SyncLoop/SyncLoopAnalysis.cpp:40-48 | every list and set is emptied |
| SyncLoop.SyncLoopPass.ClearTaint | lib/SyncLoop/SyncLoopAnalysis.cpp:463-466 | the taint state after a read candidate is the cleared state |
| SyncLoop.SyncLoopPass.Add2CrptList | lib/SyncLoop/SyncLoopAnalysis.cpp:50-57 | the state becomes the specification's `Add`; the result says whether the value was absent |
| SyncLoop.SyncLoopPass.ParseInput | lib/SyncLoop/SyncLoopAnalysis.cpp:83-105 | exactly two lines are read, write then read; an unopenable report or a line that fails to scan aborts, a missing line reading as empty |
| SyncLoop.SyncLoopPass.AnyFinished | lib/SyncLoop/SyncLoopAnalysis.cpp:157-162 | true exactly when some operand is already recorded (the same loop as ConAnalysis's, repeated in this pass) |
| SyncLoop.SyncLoopPass.OperandFlags | lib/SyncLoop/SyncLoopAnalysis.cpp:187-206 | the four operand flags, each in both directions; an already recorded operand also records the instruction |
| SyncLoop.SyncLoopPass.RacingStep | lib/SyncLoop/SyncLoopAnalysis.cpp:145-219 | one turn of the per-line instruction loop performs exactly one step of the replay |
| SyncLoop.SyncLoopPass.RacingList | lib/SyncLoop/SyncLoopAnalysis.cpp:144-220 | the instruction loop of one line performs the replay of its list |
| SyncLoop.SyncLoopPass.RacingLineStep | lib/SyncLoop/SyncLoopAnalysis.cpp:114-221 | one report line succeeds exactly when the specification's step does, and reaches its state |
| SyncLoop.SyncLoopPass.Override | lib/SyncLoop/SyncLoopAnalysis.cpp:225-247 | the lists become the specification's override of the replayed lists |
| SyncLoop.SyncLoopPass.ReplayLines | lib/SyncLoop/SyncLoopAnalysis.cpp:112-222 | the report-line loop succeeds exactly when the replay does, and reaches its state |
| SyncLoop.SyncLoopPass.Initialize | lib/SyncLoop/SyncLoopAnalysis.cpp:107-249 | `initialize` succeeds exactly when the replay does; the lists are the replay with the manual override applied |
| SyncLoop.SyncLoopPass.SearchLoops | lib/SyncLoop/SyncLoopAnalysis.cpp:262-266 | the first top-level loop whose pre-order search finds the block |
| SyncLoop.SyncLoopPass.CheckLoop | lib/SyncLoop/SyncLoopAnalysis.cpp:251-269 | an empty read list aborts; otherwise the first loop holding the block of the first read |
| SyncLoop.SyncLoopPass.Influenced | lib/SyncLoop/SyncLoopAnalysis.cpp:322-331 | true exactly when the function has a graph and some earlier local tainted branch influences the instruction's block |
| SyncLoop.SyncLoopPass.MatchDescriptors | lib/SyncLoop/SyncLoopAnalysis.cpp:334-358 | the GEP is tainted exactly when a recorded descriptor under its base selects its element |
| SyncLoop.SyncLoopPass.TaintWholeGep | lib/SyncLoop/SyncLoopAnalysis.cpp:359-385 | a tainted operand taints an untainted GEP and records its descriptor under operand 1; an arity other than two or three aborts |
| SyncLoop.SyncLoopPass.VisitGep | lib/SyncLoop/SyncLoopAnalysis.cpp:332-385 | the GEP case succeeds exactly when the specification's does, and reaches its state |
| SyncLoop.SyncLoopPass.VisitOther | lib/SyncLoop/SyncLoopAnalysis.cpp:386-409 | the generic case reaches exactly the specification's state |
| SyncLoop.SyncLoopPass.Step | lib/SyncLoop/SyncLoopAnalysis.cpp:320-409 | one step of the walk succeeds exactly when the specification's does, and reaches its state |
| SyncLoop.SyncLoopPass.FindSeed | lib/SyncLoop/SyncLoopAnalysis.cpp:295-306 | the search stops at the first position of the instruction, or at the end exactly when it is absent |
| SyncLoop.SyncLoopPass.Walk | lib/SyncLoop/SyncLoopAnalysis.cpp:319-410 | the walk succeeds exactly when the specification's does, and reaches its state and flag |
| SyncLoop.SyncLoopPass.IntraFlowAnalysis | lib/SyncLoop/SyncLoopAnalysis.cpp:290-412 | `intraFlowAnalysis` succeeds exactly when the specification does, and reaches its state and flag |
| SyncLoop.SyncLoopPass.FindExit | lib/SyncLoop/SyncLoopAnalysis.cpp:433-461 | the detection loop finds exactly the first exiting compare or binary operator of the trace |
| SyncLoop.SyncLoopPass.HasConstantWrite | lib/SyncLoop/SyncLoopAnalysis.cpp:415-424 | true exactly when some write instruction is a store of a constant |
| SyncLoop.SyncLoopPass.AnalyseRead | lib/SyncLoop/SyncLoopAnalysis.cpp:430-466 | one read frame succeeds exactly when its specified outcome does, yields that detection and leaves the state cleared |
| SyncLoop.SyncLoopPass.AnalyseReads | lib/SyncLoop/SyncLoopAnalysis.cpp:429-467 | the read loop succeeds exactly when every frame does, and yields the detections frame by frame |
| SyncLoop.SyncLoopPass.AdhocSyncAnalysis | lib/SyncLoop/SyncLoopAnalysis.cpp:414-469 | nothing happens unless a write stores a constant; otherwise the detections of every read frame, in order |
| SyncLoop.SyncLoopPass.RunOnModule | lib/SyncLoop/SyncLoopAnalysis.cpp:471-491 | succeeds exactly when the report opens, both lines scan, their replay succeeds, the read list is not empty and, for a loop with a constant write, collecting over the read sites succeeds; a missing or malformed report aborts; on success the replayed, overridden lists and the first loop holding the read; with a loop and no constant write it succeeds with no detections; with a loop, the pass is constant exactly when some write stores a constant, and then it succeeds exactly when collecting over the read sites from the cleared state does, with exactly those detections |
| ReportLines.FileName | pyscripts/parser/tsanOutputParser.py:166 | the file name of a frame never contains a `/` |
| ReportLines.FileNameOfName | pyscripts/parser/tsanOutputParser.py:166 | a plain file name is kept as it is |
| ReportLines.FileNameStripsDir | pyscripts/parser/tsanOutputParser.py:166 | `dir/name` is reduced to `name` whatever the directory, which is what the interceptor test at line 167 relies on |
| ReportLines.Boundary | pyscripts/parser/tsanOutputParser.py:45-53 | the boundary is the 1-based index of the last break line at or after the base, or the base when there is none |
| TsanParser.Breaks | pyscripts/parser/tsanOutputParser.py:50 | one flag per line, set exactly on the block-break lines |
| TsanParser.CheckBlockIntegrity | pyscripts/parser/tsanOutputParser.py:45-53 | the loop computes the boundary of the specification |
| TsanParser.ConLine | pyscripts/parser/tsanOutputParser.py:243-281 | one line of the ConAnalysis loop takes exactly the specification's step |
| TsanParser.ConScanTo | pyscripts/parser/tsanOutputParser.py:238-281 | the loop writes the files of the scan of the lines before the boundary, numbered from 0 |
| TsanParser.RunNormalConAnalysis | pyscripts/parser/tsanOutputParser.py:220-284 | only the lines before the last block-break line are read, and the files written are those of their scan, numbered from 0 |
| TsanParser.ConLineStepEntries | pyscripts/parser/tsanOutputParser.py:255-281 | a line writes only pending entries, never an empty file, and adds only the entry of its own non-interceptor frame |
| TsanParser.ConFilesFromFrames | pyscripts/parser/tsanOutputParser.py:255-281 | every file written in ConAnalysis mode is non-empty, and each of its entries comes from a non-interceptor frame line of the report |
| TsanParser.SyncFrameLine | pyscripts/parser/tsanOutputParser.py:164-186 | the frame branch takes exactly the specification's step, the read side and then the write side |
| TsanParser.SyncLine | pyscripts/parser/tsanOutputParser.py:145-217 | one line of the SyncLoop loop takes exactly the specification's step |
| TsanParser.SyncScanTo | pyscripts/parser/tsanOutputParser.py:140-217 | the loop writes the files of the scan of the lines before the boundary, numbered from 0 |
| TsanParser.RunNormalSyncLoop | pyscripts/parser/tsanOutputParser.py:120-218 | only the lines before the last block-break line are read, and the files written are those of their scan, numbered from 0 |
| TsanParser.SyncLineStepPaired | pyscripts/parser/tsanOutputParser.py:164-217 | at most one entry per side is kept, and an entry already pending is never replaced, only cleared; a written file is the pending write entry then the pending read entry; only the line's own non-interceptor frame is added |
| TsanParser.SyncFilesPaired | pyscripts/parser/tsanOutputParser.py:164-217 | every file written in SyncLoop mode is exactly a write entry then a read entry, each from a non-interceptor frame line of the report |
| TsanParser.BlockBreakRestarts | pyscripts/parser/tsanOutputParser.py:199-204 | a block break discards what is pending: the lines after it write what they would from a fresh start |
| TsanParser.SyncLineNoRead | pyscripts/parser/tsanOutputParser.py:160-198 | without read capture, only a read-start line can capture a read entry |
| TsanParser.WriteStartStopsRead | pyscripts/parser/tsanOutputParser.py:155-159 | after a write-start line no read entry is captured until the next read-start line |
| ValgrindParser.Breaks | pyscripts/parser/valgrindOutputParser.py:55 | one flag per line, set exactly on the blank `==PID==` lines |
| ValgrindParser.CheckBlockIntegrity | pyscripts/parser/valgrindOutputParser.py:51-58 | the loop computes the boundary of the specification, over the blank lines |
| ValgrindParser.SyncFrameLine | pyscripts/parser/valgrindOutputParser.py:194-211 | the frame branch takes exactly the specification's step, the read side and then the write side |
| ValgrindParser.SyncLine | pyscripts/parser/valgrindOutputParser.py:168-234 | one line takes exactly the specification's step |
| ValgrindParser.SyncScanTo | pyscripts/parser/valgrindOutputParser.py:163-234 | the loop over the first `n` lines writes the files of their scan, numbered from 0 |
| ValgrindParser.RunNormalSyncLoop | pyscripts/parser/valgrindOutputParser.py:143-247 | as written, only the lines before the last blank line are read, and the files written are those of their scan, numbered from 0 |
| ValgrindParser.SyncLineStepPaired | pyscripts/parser/valgrindOutputParser.py:194-234 | at most one entry per side is kept, and an entry already pending is never replaced, only cleared; a written file is the pending write entry then the pending read entry; only the line's own frame is added, never the wrapper's |
| ValgrindParser.WrapperEndsCapture | pyscripts/parser/valgrindOutputParser.py:197-211 | the `mythread_wrapper` frame records nothing and stops both sides capturing |
| ValgrindParser.SyncFilesPaired | pyscripts/parser/valgrindOutputParser.py:194-234 | every file written is exactly a write entry then a read entry, each from a frame line of the report other than the wrapper's |
| ValgrindParser.BlockStartRestarts | pyscripts/parser/valgrindOutputParser.py:176-182 | a block-start line discards what is pending: it and the lines after it write what they would from a fresh start |
| ValgrindParser.SyncLineNoRead | pyscripts/parser/valgrindOutputParser.py:183-234 | without read capture, only a read-start line can capture a read entry |
| ValgrindParser.AddressEndsRead | pyscripts/parser/valgrindOutputParser.py:191-193 | after an `Address` line no read entry is captured until the next read-start line |
| ValgrindParser.CompleteRacePending | pyscripts/parser/valgrindOutputParser.py:176-211 | before its blank line, a complete race has one write and one read entry pending and nothing written |
| ValgrindParser.LastRaceDropped | pyscripts/parser/valgrindOutputParser.py:163-167 | as written, a report whose last race ends on its last blank line writes nothing, though reading that line would write the race |
| ValgrindParser.RunNormalSyncLoopThrough | pyscripts/parser/valgrindOutputParser.py:163-234 | the loop reading through the boundary line writes the files of the scan of every line up to it |
| ValgrindParser.ThroughBoundary | pyscripts/parser/valgrindOutputParser.py:223-234 | reading the boundary line as well writes what the converter writes and then the pending pair, if complete; afterwards no complete pair is left unwritten |

## Left out

- The overnight modes of both converters (`runOverNight`) are not modelled. They repeat the normal mode over a growing file, driven by a clock and a signal handler.
- The regular expressions of the converters are not modelled. Each report line is given as the record of which patterns it matches and what groups it captures; the `if`/`elif` priority of the source is kept.
- File I/O, logging, `print` and debug output are left out. A written `.race` file is the list of its lines; a file that is read is the list of its `sscanf` results.
- ReportLines.FileName: `..` components are kept as they are, not resolved against the previous component the way `os.path.normpath` does; frames in these reports name files without `..`.
- The commented-out `blockEnd` branch of the Helgrind converter (valgrindOutputParser.py:235-246) is not modelled, because the source does not run it.
- The `conanalysis` output type of the Helgrind converter (valgrindOutputParser.py:253-254) is not modelled: it calls a `runNormalConAnalysis` that the file does not define.
- LLVM's own analyses are inputs of the model, not computed by it: the control-dependence graph, `LoopInfo`, the type identity that DOL compares, and the CFG successor lists. `isLoopExiting` is taken with its LLVM 3.x meaning: some successor lies outside the loop.
- The iteration order of `std::map<Instruction*, …>` and `std::set` depends on pointer values. It is a parameter of the members that iterate them.
- `std::stoi` on a line number is modelled as a natural number that is already parsed; malformed numbers are left out.
- A blank line in the DOL list of dangerous functions leaves `funcName` uninitialised in `sscanf`. The model adds no name for it.
- Dominators.ComputeDominators: the exact dataflow equation is proved only for blocks whose predecessors are the entry or have predecessors themselves. A block with an orphan predecessor (a block other than the entry that has no predecessor) need not be reached by the worklist, for instance when it is unreachable from the entry. It then keeps its initial set of all blocks, which is not the meet of its predecessors' sets; the model ensures only the inequality for such a block.
- ConAnalysis.ConAnalysisPass.Walk, ConAnalysis.ConAnalysisPass.Intra and ConAnalysis.ConAnalysisPass.FollowCall: the taint they add is not tied to a functional specification of the walk; their contracts state the invariants kept, that the stack is restored, that the lists only grow, when the return flag can be set, and (for `FollowCall`) the recorded exit size.
- Fixed-width counters (`unsigned`, `uint32_t`) are unbounded integers; no wrap-around is modelled.
- Calls into code the model cannot see (`errs()`, `report_fatal_error`, LLVM debug printing) are left out; an `assert` or `abort` of the source is an `Abort` status.

Details of the source the model follows:

- For a GEP that indexes a whole value, ConAnalysis and SyncLoopAnalysis record the descriptor under operand 1 (ConAnalysis.cpp:660, SyncLoopAnalysis.cpp:382), not under the base operand. The racing instruction itself is seeded under operand 0.
- The taint walk tests `isa<CallInst>` only, so an `invoke` takes the generic branch and its callee is not followed.
- A `sscanf` that matches only some fields of a `.race` line leaves the other fields as they were, and the model keeps them so.
- A source location with no instructions makes `iList.front()` (ConAnalysis.cpp:721) undefined in the source; the model aborts there.
- SyncLoopAnalysis never follows calls in its taint walk.
- `readList.front()` on an empty read list is undefined in the source; the model aborts there.
- The corrupted-branch and corrupted-call lists and the inter-procedural control-dependence maps are not cleared between candidate call stacks, as in the source. `clearClassDataMember` of ConAnalysis does not clear the branch lists or `dominatorMap` either.

## Findings

| source | as written | input that shows it | evidently intended | confidence | as-written member | corrected member |
|---|---|---|---|---|---|---|
| pyscripts/parser/valgrindOutputParser.py:51-58 | the boundary is the last blank `==PID==` line, and the loop stops before that line (line 166); that blank line is the one that writes the pending write/read pair, so the last race of a report is never written when that blank line is the report's last blank line | a log whose last blank line closes its last race: a block start, a read start, one frame, a write start, one frame, then the closing blank line, with no blank line after it; a complete Helgrind log, whose `Address`, location and summary lines end in further blank lines, does not show it | the last race is written like the others | low, not executed | ValgrindParser.LastRaceDropped | ValgrindParser.RunNormalSyncLoopThrough |
