# Event scheduler, arguments, configuration and warm-up of the performance-model environment

This project models, in Dafny 4.11, the parts of the simulator's control software that carry state across calls, and
proves what they promise over every input or every run. Each part exists twice where the program changes state in
place: as a value-level specification (functions and a state machine, about which the theorems are proved), and as
classes and loops in the shape of the C++ code, proved against that specification.

| Part | Files |
|---|---|
| Shared, 64-bit arithmetic, work items, schedule | `Basics.dfy`, `UInt64.dfy`, `WorkItems.dfy`, `ScheduleSpec.dfy` |
| Scheduler as a state machine, and what its runs keep | `SchedulerRun.dfy`, `SchedulerShape.dfy`, `SchedulerConservation.dfy`, `SchedulerExactness.dfy`, `SchedulerOrder.dfy`, `SchedulerArrival.dfy`, `SchedulerBreak.dfy`, `SchedulerPeriods.dfy`, `SchedulerDraining.dfy` |
| How a pass ends, and when | `SchedulerMissed.dfy`, `SchedulerSaturated.dfy`, `SchedulerFate.dfy`, `SchedulerIteration.dfy`, `SchedulerStart.dfy` |
| Linked lists, schedule and controller on the heap | `Worklists.dfy`, `Schedules.dfy`, `Controllers.dfy` |
| Command line and `-cfg` files | `Arguments.dfy`, `ArgumentReading.dfy` |
| Initialisation files | `IniFiles.dfy`, `IniReading.dfy` |
| Splitting, path algebra, path expressions | `Splitting.dfy`, `Paths.dfy`, `PathMeaning.dfy`, `RelativePaths.dfy`, `PathPlacing.dfy`, `Expansion.dfy`, `ExpansionLoop.dfy`, `ExpansionReading.dfy` |
| Warm-up manager and line filter | `Warmup.dfy`, `LineFilter.dfy`, `WarmupClients.dfy`, `WarmupEvents.dfy`, `WarmupManager.dfy` |

## How to read it

**Scheduler.** `SchedulerRun.Step` is one step of the controller (draining one item, dispatching one item, one clock of
the performance model, and so on); `After` is any number of steps. What the surroundings do in a step (commands that
arrive, counters that move) is an arbitrary function of the step number, so a statement about `After(Initial(...), env,
0, n)` speaks of every run. A history records what was drained, put on a list, dispatched and cleared. `Controllers.Controller` runs
the loop over intrusive linked lists, and `LoopIteration` is proved to perform exactly the steps of the state machine.
Assertions of either kind in the C++ code end a run in the phase `Aborted`.

**What the code does not meet.** Some promises hold only under a condition, which is stated exactly:

- A one-shot cycle item that is drained by its cycle is dispatched once and at that cycle, unless it is cleared
  (`CycleItemFiresExactlyOnce`). One that is drained late is behind the counter in every pass until it is cleared
  (`LateDrainedIsBehind`). A pass fails the assertion that no cycle item was missed if and only if it begins with an
  item behind the counter or re-arms one behind it, refused requests aside (`PassMissesIffOffence`); a
  command for cycle 0 that is issued during the first cycle after a start is enough (`LateCommandAborts`). An item that is drained late and cleared before the pass does no harm.
- Re-arming moves a periodic item into the future if and only if the period can be added without wrap-around
  (`AlignIsFutureIffFits`). What a wrap does depends on the list, and the lists that a pass begins with tell exactly how
  it ends (`FateOf`). With a late or wrapping item due on the cycle or the nanosecond list an assertion fails
  (`DoomedPassDies`). Otherwise, with an instruction or macro-instruction item due that wraps, the pass dispatches for
  ever if the item wraps to before its counter, and fails an assertion if it wraps to the counter itself, which takes
  the largest period and a counter of 0 or of its maximum (`AlignIsPresentIff`, `StuckWraps`). Otherwise it ends with
  nothing left to dispatch. A refused request ends a pass of any kind; that apart, a pass ends if and only if it is not
  of the looping kind (`PassEndsIffFated`, `PassEndsAsFated`, `LoopsForEver`), and so does the loop iteration around it
  (`GetsThroughIff`). From a start with all counters at zero, one command with the largest instruction period loops as
  soon as an instruction has committed (`LargestPeriodLoops`); before that it fails the other assertion
  (`LargestPeriodAborts`).
- The cycle formula gives the next multiple of the period if and only if the next cycle is not one (`FirstIsLeastIff`):
  it skips a multiple that is exactly one cycle ahead, so a period of 1 fires every second cycle
  (`MultipleOneCycleAheadIsSkipped`, `ExpectedPeriodOne`).
- An exit condition is queued without breaking the clock loop (`ExitConditionDoesNotBreak`).
- After a pass the assertion on stop times holds if and only if no empty list meets a counter at its maximum
  (`StopTimesAreLater`).
- The canonical form of a relative path leads to the same directory from everywhere if and only if no parent component
  takes an empty component for a name and the path does not go on to more than one entry from an empty component where
  it started, which comes out absolute (`SameDirectoryIffRegular`). For an absolute path it does if and only if the
  parents that take an empty entry below the root are as many as those that take a name at the root
  (`AbsoluteIffBalanced`). All failures come of doubled slashes (`ParentRemovesEmptyEntry`, `RelativeTurnsAbsolute`),
  and so does a path above its start that is accepted (`AboveStartUnnoticed`).
- The root prints as the empty string, or as `/` if the path ends in a slash that is not its first (`EmptyResult`,
  `SlashResult`). Canonicalising twice changes that `/` and nothing else (`TwiceIffNotSlash`), so never a path with no
  empty component but the one before its first slash (`CanonicalIsIdempotent`).
- Memory and disk of an initialisation file agree after a put if and only if the reader's patterns match the names and
  the value does not begin with a space (`AgreesIffReadsBack`).
- The replacement of variables ends if and only if the expression refers to no set of names each of whose definitions
  refers to one of them again (`EndsIffNothingEndless`); two names that refer to each other are enough
  (`MutualNeverEnds`, `HomeAndUserNeverEnd`).

**What the specification functions mean.** Where methods and theorems rest on the same function, a law says what it
comes to without it: in the five lists and the triggers by name (`SchedulerDraining`), in the words as they are met
(`ArgumentReading`), in the characters of lines and expressions (`IniReading`, `ExpansionReading`), in the directories
that a path leads to (`PathPlacing`), and in the answers of the feeders (`WarmupEvents`).

**Closed definitions.** Some specification functions are kept closed to the solver by a marker predicate: the definition
is available once the marker is mentioned (`EndOpened`, `OutcomeOpened` and their like). They carry no meaning of their
own.

## Model

| member | source | states |
|---|---|---|
| UInt64.AlignIsLeastMultiple | modules/controller/classic/schedule.cpp:204-227 | without wrap-around the next time of a periodic item is the least multiple of its period strictly above the counter (plus one for cycles and instructions) |
| UInt64.AlignIsFutureIffFits | modules/controller/classic/schedule.cpp:204-227 | the next time lies after the counter if and only if the 64-bit addition does not wrap |
| WorkItems.InsertIsStable | modules/controller/classic/control.h:974-999 | sorted insertion keeps a list sorted, puts the item behind all items of the same time, and moves nothing else |
| WorkItems.InsertElements | modules/controller/classic/control.h:974-999 | insertion adds exactly the one item |
| ScheduleSpec.ReadyIsFirstDue | modules/controller/classic/schedule.cpp:74-183 | the event found is the first due item in the order of the lists; nothing is found only if nothing is due or an assertion fails |
| UInt64.AlignIsPresentIff | modules/controller/classic/schedule.cpp:204-227 | the next time is the present if and only if the period is the largest, the slack is one and the counter is 0 or its maximum |
| ScheduleSpec.RearmIsFutureIffFits | modules/controller/classic/schedule.cpp:186-253 | scheduling moves a periodic item strictly into the future exactly when nothing wraps |
| ScheduleSpec.PlaceKeepsDue | modules/controller/classic/schedule.cpp:186-253 | an item placed in the future leaves the due items of all lists as they are |
| ScheduleSpec.PlaceValid | modules/controller/classic/schedule.cpp:186-253 | scheduling keeps every list sorted and holding its own kind of item only |
| Worklists.WorkList.Add | modules/controller/classic/control.h:1004-1015 | appends at the tail; head, tail and links stay well formed and the contents grow by the item |
| Worklists.WorkList.Remove | modules/controller/classic/control.h:1021-1028 | takes the head off a non-empty list and unlinks it |
| Worklists.WorkList.RemoveItem | modules/controller/classic/control.h:926-950 | unlinks one given member wherever it stands, and leaves the others in order |
| Worklists.WorkList.InsertOrdered | modules/controller/classic/control.h:974-999 | the scan over the links performs the stable sorted insertion of the specification |
| Worklists.WorkList.ClearProgress | modules/controller/classic/control.h:1033-1043 | removes the progress items while walking the list, and keeps the rest in order |
| Schedules.Schedule.ReadyEvent | modules/controller/classic/schedule.cpp:74-183 | examines the five lists on the heap as the specification does and takes the ready head off |
| Schedules.Schedule.ScheduleItem | modules/controller/classic/schedule.cpp:186-253 | computes the next time in place and inserts the item into the list of its trigger |
| Schedules.Schedule.ClearProgress | modules/controller/classic/schedule.cpp:351-378 | clears the progress items of one list and touches no other |
| Controllers.Controller.Enqueue | modules/controller/classic/control.cpp:149-192 | each command puts one item on the worklist and, but for an exit condition, sets the break flag |
| Controllers.Controller.DrainOne | modules/controller/classic/control.cpp:608-617 | one item leaves the worklist for its list, or is consumed by clearing a list |
| Controllers.Controller.Dispatch | modules/controller/classic/control.cpp:628-672 | for every pass that ends the dispatch loop on the heap performs exactly the steps that the state machine takes for the pass |
| Controllers.Controller.Execute | modules/system/single_chip_common_system.cpp:227-313 | the clock loop runs until a stop time, a committed marker or a break, as the state machine does |
| Controllers.Controller.LoopIteration | modules/controller/classic/control.cpp:582-713 | every iteration of the scheduler loop that gets through its pass reaches on the heap exactly the state that the state machine reaches |
| SchedulerIteration.GetsThroughIff | modules/controller/classic/control.cpp:582-672 | which iterations do, exactly: those in which an assertion fails or the controller is exiting before the pass, or the drained lists do not hold an instruction or macro-instruction item that keeps wrapping behind its counter, or a request is refused during the pass |
| SchedulerShape.RunsKeepTiming | modules/controller/classic/control.cpp:582-713 | over every run the lists stay sorted and, while the model executes, no cycle item is in the past |
| SchedulerShape.NothingReadyNothingDue | modules/controller/classic/schedule.cpp:74-183 | when no event is found, no list holds a due item |
| SchedulerConservation.EveryItemInExactlyOnePlace | modules/controller/classic/control.cpp:608-672 | over every run each item created is in exactly one of: the worklist, one list, the dispatched one-shots, the cleared items |
| SchedulerConservation.OneShotFiresAtMostOnce | modules/controller/classic/control.cpp:652-665 | no one-shot item is dispatched twice |
| SchedulerExactness.CycleItemFiresExactlyOnce | modules/controller/classic/schedule.cpp:84-100 | over every run a one-shot cycle item that was drained is, once its cycle is past and unless cleared, dispatched exactly once and at exactly that cycle |
| SchedulerExactness.CycleItemsMissedOnlyAfterOffence | modules/controller/classic/schedule.cpp:96-98 | how an item can get behind: that assertion fails only in runs in which an item was drained late or a cycle period wrapped |
| SchedulerMissed.PassMissesIffOffence | modules/controller/classic/schedule.cpp:84-100 | over every run, for each way in which a pass ends but a refused request: it ends in the assertion that no cycle item was missed if and only if it began with an item behind the cycle counter or re-armed one behind it |
| SchedulerMissed.OffenceEndsPass | modules/controller/classic/control.cpp:628-672 | and such a pass ends within one step for each item of the cycle list |
| SchedulerMissed.LateDrainedIsBehind | modules/controller/classic/control.cpp:608-617 | over every run a one-shot cycle item drained after its cycle and not cleared is behind the counter whenever a pass dispatches |
| SchedulerStart.LateCommandAborts | modules/system/basesystem_classic/basesystem_classic.cpp:48-70 | from counters at zero: started, then given a command for cycle 0 during the first clock step, the system ends in that assertion after 13 steps |
| SchedulerStart.LateItemAborts | modules/controller/classic/control.cpp:582-672 | the same from any turn of the scheduler loop for one late one-shot cycle item |
| SchedulerExactness.LateItemDoomsPass | modules/controller/classic/schedule.cpp:96-98 | a late item on the cycle list ends the pass in that assertion, or in a refused request before it |
| SchedulerOrder.PassDispatchesTheDueItemsInOrder | modules/controller/classic/control.cpp:628-672 | over every run a pass dispatches exactly the items that were due, list by list and in list order |
| SchedulerOrder.DueOnIsOrdered | modules/controller/classic/control.h:974-999 | the due items of a list are its items that are due, in time order, immediate items at time 0 |
| SchedulerArrival.ListsKeepArrivalOrder | modules/controller/classic/control.h:974-999 | over every run, of two items of one list with equal times the one nearer to the head was put on the list earlier, drained or re-armed |
| SchedulerArrival.EqualTimesInArrivalOrder | modules/controller/classic/control.cpp:628-672 | over every run a pass that is over has dispatched the items of one list with equal times in the order in which they had been put on the list |
| SchedulerOrder.PassTerminates | modules/controller/classic/control.cpp:628-672 | without an item stuck by wrap-around a pass ends after one step for each due item and one more |
| SchedulerFate.DoomedPassDies | modules/controller/classic/schedule.cpp:84-124 | an item behind the counter, or due and about to wrap, on the cycle or the nanosecond list ends the pass in a failed assertion, whatever the surroundings do |
| SchedulerFate.LoopsForEver | modules/controller/classic/control.cpp:628-672 | with no such item, and an instruction or macro-instruction item due that wraps to before its counter, the pass dispatches for ever as long as no request is refused |
| SchedulerFate.StuckWraps | modules/controller/classic/schedule.cpp:204-227 | an item whose re-arming wraps is put before its counter, but for the largest period with a counter of 0 or its maximum on any list but the nanosecond one |
| SchedulerFate.PassEndsIffFated | modules/controller/classic/control.cpp:628-672 | for all lists, counters and surroundings: a pass ends if and only if the lists it begins with are not of that kind or a request is refused |
| SchedulerFate.PassEndsAsFated | modules/controller/classic/control.cpp:628-672 | and if it ends, it ends in a failed assertion or with nothing left to dispatch as those lists tell, a refused request apart |
| SchedulerFate.FateKept | modules/controller/classic/schedule.cpp:204-253 | what the lists tell does not change with any dispatch of the pass |
| SchedulerSaturated.SaturatedDispatch | modules/controller/classic/schedule.cpp:211-227 | with a counter at its maximum, whether an item of the largest period is ever reached does not change with a dispatch, and if it is, it comes nearer |
| SchedulerStart.LargestPeriodLoops | modules/system/basesystem_classic/basesystem_classic.cpp:48-70 | from counters at zero: started, with an instruction committed in the first clock step, one command with the largest instruction period given in that step makes the next pass dispatch for ever |
| SchedulerStart.WrappingPeriodLoops | modules/controller/classic/schedule.cpp:211-227 | the same from any turn of the scheduler loop for any instruction period that wraps, with a counter between the extremes |
| SchedulerStart.LargestPeriodAborts | modules/controller/classic/schedule.cpp:219-227 | before anything is committed the same command fails the assertion that nothing is re-armed for the present |
| SchedulerOrder.StopTimesAreLater | modules/controller/classic/control.cpp:684-697 | after a pass every list head is strictly later than its counter, and the assertion before execution holds if and only if no empty list meets a counter at its maximum |
| SchedulerDraining.RequestsAreAsked | modules/controller/classic/control.cpp:149-192 | any requests, none of them refused, put one item each at the end of the worklist, in order and with their own command, trigger and count; they set the break flag unless all are exit conditions, and a start ends the stop |
| SchedulerDraining.ClearCommandClears | modules/controller/classic/control.cpp:922-950 | draining a command to clear the progress of cycles, nanoseconds, instructions, macro-instructions or packets takes the progress items off the list of that name and leaves the other four alone; nothing is placed |
| SchedulerDraining.OtherCommandIsPlaced | modules/controller/classic/control.cpp:608-617 | draining any other item puts it on the schedule, or ends the run in the assertion that fails |
| SchedulerDraining.PlacedByTrigger | modules/controller/classic/schedule.cpp:186-253 | for each trigger by name: the list the item goes to, and for a periodic one the counter and the slack that its next time is computed from |
| SchedulerDraining.DispatchActs | modules/controller/classic/control.cpp:628-672 | a dispatch adds the items asked for during it, then lets a start, a stop or an exit take effect, and puts periodic items and no others on their list again |
| SchedulerDraining.PassDispatchesListByList | modules/controller/classic/schedule.cpp:74-183 | over every run a pass that is over has dispatched the due items of the cycle, nanosecond, instruction, macro-instruction and packet lists, each by its own counter and in that order |
| SchedulerBreak.StopsAreHeads | modules/controller/classic/control.cpp:684-697 | execution is entered with the times of the list heads as stop times, the largest time for an empty list, and the next marker as the stop marker |
| SchedulerBreak.ClockLoopTest | modules/system/single_chip_common_system.cpp:247-293 | the clock loop is left if and only if something breaks it, a cycle, instruction or macro-instruction counter has reached its stop time, or the marker is committed |
| SchedulerBreak.NoStopIsPassed | modules/system/single_chip_common_system.cpp:247-293 | over every run the clock moves only with every instruction and macro-instruction item ahead of its counter and no marker committed since execution began |
| SchedulerBreak.ClockMovesOnlyWhenAllowed | modules/system/single_chip_common_system.cpp:247-293 | over every run the clock moves only with no command waiting, no stop for a marker outstanding, the controller neither stopped nor exiting, and every cycle item in the future |
| SchedulerBreak.ExitConditionDoesNotBreak | modules/controller/classic/control.cpp:69-81 | an exit condition leaves the clock loop running with work waiting |
| SchedulerPeriods.PeriodicItemFiresAsExpected | modules/controller/classic/schedule.cpp:204-209 | over every run a periodic cycle item has been dispatched exactly as often as its period says whenever a pass is over |
| SchedulerPeriods.ExpectedFromZero | modules/controller/classic/schedule.cpp:204-209 | from cycle 0 and with a period P of at least 2 that is C divided by P, rounded down |
| SchedulerPeriods.MultipleOneCycleAheadIsSkipped | modules/controller/classic/schedule.cpp:204-209 | a multiple exactly one cycle ahead is skipped |
| SchedulerPeriods.FirstIsLeastIff | modules/controller/classic/schedule.cpp:204-209 | the formula gives the least multiple of the period after the counter if and only if the next cycle is not a multiple |
| Arguments.ConfigFileIsInlineExpansion | modules/controller/classic/args.cpp:157-162 | the partition and the mode flags equal those of the words with each file's words spliced in place, for files that nest without a cycle, as long as no option that wants an operand in its mode ends a list or meets a -cfg |
| Arguments.SpliceIsTidy | modules/controller/classic/args.cpp:279-287 | the spliced words name no file, leave no option without its operand, and lead to the same mode |
| Arguments.ActLooksNoFurther | modules/controller/classic/args.cpp:129-197 | a word acts by itself and, if it wants one in the present mode, its operand; the mode after it depends on the word alone |
| ArgumentReading.PartitionIsReading | modules/controller/classic/args.cpp:129-197 | for all words, files and states: the run goes on if and only if no word met ends it, and then the system list has grown by the words met in system mode, the feeder list by those met in feeder mode with each repeat as copies of the word before it, and the workbench list by those met in workbench mode that are no option of it; mode words, options and operands are on none |
| ArgumentReading.ReadingBegins | modules/controller/classic/args.cpp:129-155 | the first word met is in the present mode, and each mode word leads to its mode |
| ArgumentReading.FlatReading | modules/controller/classic/args.cpp:129-197 | of words that name no file every one is met once, in order, and as an operand exactly behind an option that takes one in its mode |
| Arguments.ArgVector.Push | modules/controller/classic/args.cpp:177-189 | stores a word in a free slot |
| Arguments.ArgumentLists.Repeat | modules/controller/classic/args.cpp:164-174 | grows the feeder's list by the count and fills it with copies of its last word, keeping the room for all pending words |
| Arguments.ArgumentLists.PartitionOneArg | modules/controller/classic/args.cpp:129-197 | one word leads on as the specification says; used slots plus unprocessed words over all open files never exceed any list's capacity |
| Arguments.ArgumentLists.ParseConfigFile | modules/controller/classic/args.cpp:250-292 | grows all three lists by the file's words, then partitions them in the present mode |
| Arguments.PartitionArgs | modules/controller/classic/args.cpp:97-125 | the three lists end up holding what the specification computes, or the run has stopped |
| IniFiles.ParsedIsFirstDefinition | lib/libawb/inifile.cpp:79-140 | a parsed file gives each item the value on the first line that defines it in a section of its group, and nothing else |
| IniFiles.CommentIsNothingElse | lib/libawb/inifile.cpp:41-44 | no comment line matches the patterns of groups and items, although `Put` does not look for comments |
| IniFiles.ItemLineReads | lib/libawb/inifile.cpp:262-272 | the line written for an item reads back as that item, without leading spaces of the value |
| IniFiles.RewrittenParses | lib/libawb/inifile.cpp:233-300 | the rewritten file parses to the old contents with the one setting made, also when a second header of the group is appended |
| IniFiles.AgreesIffReadsBack | lib/libawb/inifile.cpp:209-300 | memory and disk agree after a put of any setting without newlines if and only if the patterns match its names and its value does not begin with a space |
| IniFiles.PutsAreRead | lib/libawb/inifile.cpp:209-300 | after any puts a fresh reader finds the last value put, and the first definition of every item not put |
| IniReading.HeaderIs | lib/libawb/inifile.cpp:41-44 | a line is the header of a group if and only if it is the group between brackets and all its characters are of the written-out alphabet |
| IniReading.ItemIs | lib/libawb/inifile.cpp:41-44 | a line gives a name a value if and only if it is the name over its alphabet, any number of spaces, an equals sign, any number of spaces and the value |
| IniReading.CommentIs | lib/libawb/inifile.cpp:41-44 | a line is a comment if and only if nothing but spaces and tabs comes before its end or a hash |
| IniReading.ParsedIs | lib/libawb/inifile.cpp:79-140 | for every file: an item has a value if and only if some line is the first to give it that value between a header of its group and the next header |
| IniReading.TwoLinesRead | lib/libawb/inifile.cpp:117-131 | a header and a line with spaces on both sides of the equals sign give the item its value |
| IniReading.ShippedVariableReads | share/awb.config.template.in:25-26 | the first variable of the shipped configuration is read |
| IniReading.RewrittenWithoutHeader | lib/libawb/inifile.cpp:233-300 | a file without the group's header gets it and the item at its end |
| IniReading.RewrittenAfterHeader | lib/libawb/inifile.cpp:233-300 | otherwise the item takes the place of its first line in the section or goes in front of the next header, and every other line stays; a section that reaches the end without it is written once more |
| IniFiles.IniFile.Parse | lib/libawb/inifile.cpp:79-140 | the reading loop computes the specified map |
| IniFiles.IniFile.Get | lib/libawb/inifile.cpp:151-178 | the item's value, else the environment's if a name is given and set, else the default |
| IniFiles.IniFile.Set | lib/libawb/inifile.cpp:185-202 | the one setting is made and every other kept |
| IniFiles.IniFile.Rewrite | lib/libawb/inifile.cpp:233-300 | the loops with their two flags write exactly the specified lines |
| IniFiles.IniFile.Put | lib/libawb/inifile.cpp:209-317 | memory and disk both get the setting, and if they agreed before they agree after exactly when it is read as it was written |
| Splitting.SplitPieces | lib/libawb/util.cpp:68-122 | there is one piece more than there are separators, and no piece contains one |
| Splitting.SplitRejoins | lib/libawb/util.cpp:68-122 | for one separator character the pieces rejoin to the string |
| Splitting.JoinSplits | lib/libawb/util.cpp:68-122 | and pieces without separators are recovered from the joined string |
| Splitting.SplitIterator.Next | lib/libawb/util.cpp:68-122 | the iterator moves strictly forward and yields the split piece by piece, but for the empty string (none) and a lone separator (one empty piece) |
| Splitting.CollectPieces | lib/libawb/util.h:210-225 | the usual loop ends and collects exactly those pieces |
| Paths.CanonicalFilename | lib/libawb/util.cpp:557-635 | the loops over components and stack compute the specified path; a relative path that backs out of its start fails, or exits on request |
| Paths.CanonicalIsClean | lib/libawb/util.cpp:547-556 | no component of the result is "." or ".." |
| Paths.CanonicalTwice | lib/libawb/util.cpp:557-635 | for every path, canonicalising the result changes a lone slash and nothing else |
| PathMeaning.TwiceIffNotSlash | lib/libawb/util.cpp:557-635 | when that is, told from the path: it is absolute, leads to the root, and has one empty component beside the first |
| PathMeaning.CanonicalIsIdempotent | lib/libawb/util.cpp:557-635 | canonicalising is idempotent on every path with no empty component but the one before its first slash |
| PathMeaning.SlashResult | lib/libawb/util.cpp:614-634 | without doubled slashes the result is a lone slash if and only if the path is absolute, ends in a slash after its first component, and leads to the root |
| PathMeaning.EmptyResult | lib/libawb/util.cpp:614-634 | without doubled slashes the result is empty if and only if the path leads to the root or back to its start and the result is no lone slash |
| PathMeaning.NamelessResults | lib/libawb/util.cpp:614-634 | the same two for all regular paths, by the number of empty components |
| Paths.FailsIffAboveStart | lib/libawb/util.cpp:592-609 | a path fails if and only if it is relative and some prefix takes more parents than it has components pushed, empty ones included |
| PathMeaning.SameDirectory | lib/libawb/util.cpp:557-635 | as long as no parent component takes an empty entry off the stack and no relative path goes on from an empty component where it started, the result leads from every directory where the original leads, but for the root, which prints as the empty string |
| PathMeaning.SameDirectoryIffRegular | lib/libawb/util.cpp:557-635 | for relative paths that condition is exact: otherwise there is a directory from which the two lead apart |
| PathMeaning.AbsoluteIffBalanced | lib/libawb/util.cpp:584-635 | for absolute paths the exact condition: the parents that take an empty entry below the root are as many as those that take a name at the root; the root alone prints as the empty string |
| PathMeaning.ParentRemovesEmptyEntry | lib/libawb/util.cpp:584-617 | after a doubled slash a parent component removes the empty entry and the result leads elsewhere |
| PathMeaning.RelativeTurnsAbsolute | lib/libawb/util.cpp:584-617 | a relative path with a doubled slash can come out absolute |
| PathMeaning.AboveStartUnnoticed | lib/libawb/util.cpp:592-609 | a path with a doubled slash can go above its start without failing |
| RelativePaths.FileRelativePath | lib/libawb/util.cpp:880-930 | the loops strip the common prefix, go up and go down as specified; unless both paths are absolute the second is returned |
| RelativePaths.JoinAppends | lib/libawb/util.cpp:643-657 | joining appends one component to a relative path |
| PathPlacing.JoinLeads | lib/libawb/util.cpp:643-657 | for all names: a joined path leads, from every directory, where the second leads from where the first one leads; an absolute second name comes out alone |
| PathPlacing.TildeIsHome | lib/libawb/util.cpp:517-545 | what the home lookup gives takes the place of a tilde and the name behind it up to the first slash, the rest stays; other paths are left alone |
| RelativePaths.RelativeRoundTrip | lib/libawb/util.cpp:880-930 | following the relative path from the first directory and canonicalising ends at the names of the second path |
| RelativePaths.RelativeIsShortestUp | lib/libawb/util.cpp:905-925 | the relative path arrives, and no list of components that arrives takes fewer parents |
| Expansion.ExpandVariables | lib/libawb/workspace.cpp:318-335 | replacing the leftmost reference over and over ends and gives the full recursive substitution, undefined names included, if no definition that is reached refers to itself |
| Expansion.ReplaceOne | lib/libawb/workspace.cpp:333-334 | one replacement keeps the meaning and leaves fewer replacements to do |
| Expansion.SubstituteBetween | lib/libawb/workspace.cpp:323-334 | the leftmost match of the pattern is the first reference, and replacing the match replaces it |
| ExpansionReading.MatchIs | lib/libawb/workspace.cpp:323-326 | a reference is a dollar, one of two opening signs, at least one other character and one of two closing signs |
| ExpansionReading.ReferenceReads | lib/libawb/workspace.cpp:323-334 | behind text without a dollar a reference with either signs is found, its name read, and its value put in its place |
| ExpansionReading.UnknownIsMarked | lib/libawb/workspace.cpp:255-269 | a name that is not defined comes out between its marks |
| ExpansionLoop.ReferenceNeverEnds | lib/libawb/workspace.cpp:318-335 | an expression that refers to a name of a set whose definitions all refer to names of the set has a reference left after any number of replacements |
| ExpansionLoop.EndsIffNothingEndless | lib/libawb/workspace.cpp:318-335 | the loop ends if and only if the expression refers to no such set |
| ExpansionLoop.MutualNeverEnds | lib/libawb/workspace.cpp:318-335 | with two names whose definitions refer to each other, whatever text is around the references, an expression that refers to one of them is never done |
| ExpansionLoop.MeaningIsReached | lib/libawb/workspace.cpp:318-335 | and then with the meaning, after no more rounds than there are references to replace |
| Expansion.ChoiceHasFewer | lib/libawb/workspace.cpp:345-358 | choosing an option leaves fewer opening braces, so the recursion ends for nested groups too |
| Expansion.ExpansionIsProduct | lib/libawb/workspace.cpp:337-359 | groups that do not nest expand to the cartesian product of their options, the leftmost group slowest |
| Expansion.DegenerateGroups | lib/libawb/workspace.cpp:345-358 | an empty group yields nothing and a lone comma one empty option |
| ExpansionReading.OptionsExpand | lib/libawb/workspace.cpp:345-358 | a group gives one result for each text between its commas, in order, with what is around the group on both sides |
| Expansion.FinishTwice | lib/libawb/workspace.cpp:363-381 | passing through the inner and the outer second round puts the base directory in front once |
| Expansion.FinishComesOut | lib/libawb/workspace.cpp:363-381 | home directory first: an absolute path, or any without a base directory, is the result, and a relative one leads from every directory to where it leads from the base directory |
| Expansion.ExpandPath | lib/libawb/workspace.cpp:303-381 | the recursive routine appends, for each expression in order, all choices of its meaning, home directories replaced; an absolute result comes out as it is and a relative one leads where it leads from the base directory |
| Expansion.ExpandedIsProduct | lib/libawb/workspace.cpp:303-381 | together: the results are the product of the groups, each placed once |
| Warmup.GlobalEntryHearsAll | modules/warmup/warmup_instrs.h:543-597 | an entry of a global list is called with every event of its kind, once and in order |
| Warmup.OwnEntryHearsItsContext | modules/warmup/warmup_instrs.h:543-597 | an entry of a context's list is called with every event of its kind from that context, once and in order |
| WarmupClients.GlobalClientHearsAll | modules/warmup/do_warmup.cpp:64-171 | a global client of a kind other than fetches hears every event of its kind, once and in order, over any number of warm-ups |
| WarmupClients.ContextClientHearsItsQueue | modules/warmup/do_warmup.cpp:64-171 | a client of one context and a kind other than fetches hears the events of its kind from that context's queue, once and in queue order |
| WarmupClients.FetchClientHearsMerge | modules/warmup/warmup_instrs.h:469-477 | however many registrations a client has, it hears exactly those delivered fetches that enter a line of the registration they came through, in the order of delivery |
| WarmupClients.RegistrationSupplies | modules/warmup/warmup_instrs.cpp:113-131 | of that sequence each registration supplies what it passes on of the fetches it is called with |
| WarmupClients.GlobalRegistrationSupplies | modules/warmup/warmup_instrs.cpp:113-131 | for a global registration that is what enters a line, seen over all contexts and warm-ups |
| WarmupClients.OwnRegistrationSupplies | modules/warmup/warmup_instrs.cpp:113-131 | for a registration of a context, what enters a line of the fetches of that context |
| WarmupClients.GlobalFetchClientHears | modules/warmup/warmup_instrs.cpp:113-131 | with one registration a global fetch client hears exactly the fetches, over all contexts and warm-ups, that enter a line of its size |
| WarmupClients.ContextFetchClientHears | modules/warmup/warmup_instrs.cpp:113-131 | with one registration a fetch client of one context hears exactly the fetches of that context's queue that enter a line of its size |
| WarmupClients.OwnFetchClientHears | modules/warmup/warmup_instrs.h:469-477 | with one registration, over any number of warm-ups the line remembered carries over |
| Warmup.ProjectLifetime | modules/warmup/do_warmup.cpp:64-171 | what one warm-up brings from a context is what its queue holds, in order |
| Warmup.ProjectRounds | modules/warmup/do_warmup.cpp:64-171 | the round-robin merge keeps the order of each queue |
| Warmup.TicksAreLongest | modules/warmup/do_warmup.cpp:165-168 | there are as many ticks as the longest queue has answers |
| Warmup.TallyAdds | modules/warmup/do_warmup.cpp:79-158 | in a later warm-up the counters go on from where they were |
| Warmup.CountsAreEvents | modules/warmup/do_warmup.cpp:79-158 | the counters are the numbers of events of each kind, and empty plus non-empty answers make up the queue |
| WarmupEvents.LifetimeReads | modules/warmup/do_warmup.cpp:60-171 | the place of every event of a warm-up: the start; round by round and context by context the control transfer, the fetch, the loads and the stores of each answer, the references with its instruction and fetch; a tick after each round; as many rounds as the longest queue has answers; the end; and nothing else |
| WarmupEvents.QueueReads | modules/warmup/do_warmup.cpp:75-158 | of the events of a queue those of one kind are those of its answers in order: for references of each answer first all loads, marked as such, then all stores |
| WarmupEvents.ContextClientHearsAnswers | modules/warmup/do_warmup.cpp:75-158 | and that is what a client of the context hears of instructions or references |
| WarmupEvents.ContextFetchClientHearsAnswers | modules/warmup/warmup_instrs.h:469-477 | of fetches, given with the two addresses of each answer that has one, it hears what its line size lets through |
| WarmupEvents.InstrReaches | modules/warmup/do_warmup.cpp:89-94 | a control transfer goes to the global list for instructions, then to that of its context |
| WarmupEvents.FetchReaches | modules/warmup/do_warmup.cpp:99-107 | a fetch to the global list for fetches, then to that of its context |
| WarmupEvents.DataReaches | modules/warmup/do_warmup.cpp:110-130 | a reference to the global list for references, then to that of its context |
| WarmupEvents.GlobalEventReaches | modules/warmup/warmup_instrs.h:543-561 | start and end go to the entries for phases and ticks to those for ticks |
| WarmupEvents.FetchPassesOn | modules/warmup/warmup_instrs.h:469-477 | one more fetch is passed on if and only if its address divided by the line size differs from that of the fetch before it, or from 0 at first |
| WarmupManager.WarmupInfo.NoteLoad | modules/warmup/warmup_instrs.h:315-329 | a load is stored while there is room and dropped otherwise |
| WarmupManager.WarmupInfo.NoteStore | modules/warmup/warmup_instrs.h:331-345 | a store is stored while there is room and dropped otherwise |
| WarmupManager.FirstAreKept | modules/warmup/warmup_instrs.h:315-345 | of any number of references the first twenty are kept |
| WarmupManager.Manager.CallEntry | modules/warmup/warmup_instrs.h:575-585 | an entry of a list is called: a client directly, or for fetches the registration that compares lines |
| WarmupManager.Manager.CallAll | modules/warmup/warmup_instrs.h:543-597 | every entry of a list is called once, in order |
| WarmupManager.Manager.Distribute | modules/warmup/do_warmup.cpp:75-158 | one answer is passed on in full and counted |
| WarmupManager.Manager.DoWarmUp | modules/warmup/do_warmup.cpp:28-172 | a warm-up, the first or a later one, ends with every queue empty, the events of the queues announced after all earlier ones, each answer's in its place, the clients' calls as all those events lead to, and the counters grown by the queues; with warm-up disabled the queues are emptied and only start and end announced |
| WarmupManager.Manager.ValidShows | modules/warmup/warmup_instrs.h:469-477 | at any time the calls made and the line each fetch registration remembers are those that the events announced so far lead to |
| LineFilter.PowerTest | modules/warmup/warmup_instrs.h:460-461 | the assertion on the line size accepts exactly the powers of two |
| LineFilter.MaskIsLine | modules/warmup/warmup_instrs.h:463-471 | masking a 64-bit address rounds it down to a multiple of the line size |
| LineFilter.FetchCallback.CallIfNewLine | modules/warmup/warmup_instrs.h:469-477 | the client is called if and only if the line of the fetch differs from the one remembered, which is that of the fetch before it |
| LineFilter.NeighboursDiffer | modules/warmup/warmup_instrs.h:469-477 | consecutive fetches passed on are never on the same line |

## Left out

- The simulated chip, the feeders, the workbench and the clock server: their counters, commands and answers are arbitrary inputs of each step.
- The effects of dispatched items on statistics, tracing and events, and the statistics counter of the clock loop.
- Threads: commands arrive between the steps of the model, never between emptying the worklist and clearing the break flag.
- Exactness of nanosecond events, which are compared for equality and so depend on how the clock server advances.
- Packet stops: the clock loop does not look at the packet stop time, so packet items are dispatched at the first pass at or past their count.
- The macro that ends a run on a failed assertion is not part of this model; both kinds of assertion are taken to stop the run.
- The outer loop until exit is the state machine's `After`; `LoopIteration` is one iteration of it.
- Controllers.Controller.LoopIteration: is asked only for iterations that get through their pass, because a method has to end; SchedulerIteration.GetsThroughIff says exactly which do, and the state machine covers the others.
- Controllers.Controller.Dispatch: likewise is asked only for passes that end (SchedulerFate.PassEndsIffFated).
- SchedulerExactness.CycleItemsMissedOnlyAfterOffence: says of a whole history what can lead to the assertion, and so goes one way; SchedulerMissed.PassMissesIffOffence says exactly which passes end in it.
- The second copy of the controller without the scripting interface, the front ends and the decoding of action times.
- Arguments.ArgumentLists.PartitionOneArg: repeat counts below zero are excluded, because they shrink the capacity that the list is reallocated to.
- Arguments.ArgVector.Push: the allocated array is a sequence of slots, so addresses and aliasing are not modelled; every write is proved to be within the slots.
- Arguments.ArgumentLists.Repeat: the copied word is the last one, as sequenced evaluation gives; before C++17 the assignment in the code is unsequenced.
- Where a configuration file is looked for, how its lines are cut into words, and what the recognised options set; a refused operand, a missing one and a file of 4096 words or more stop the run.
- Included files, and failing file operations, of initialisation files; any line that begins with an include directive is outside the model.
- IniFiles.IniFile.Put: a name or value with a newline would be written as more than one line and is excluded.
- Regular expressions: the patterns in use are written out as functions with the leftmost, longest match.
- Paths.CanonicalTwice: a result that begins with a tilde is looked up again and is not meant.
- Home directories are a function from user prefixes to directories; wildcards in the last round of path expansion are not expanded.
- Expansion.ExpandVariables: text and names hold no dollar sign other than that of a reference.
- WarmupManager.Manager.DoWarmUp: feeders give finitely many answers, and the assertion that a control transfer carries its instruction is not modelled.
- Creating, copying and linking files and directories; the builder, the benchmark runner and the module tree.
- Splitting.SplitIterator.Next: strings are shorter than the position that marks the end iterator.
