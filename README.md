# Clean Slate Year Planner: schedule derivation engine

This project models `js/compute_new_schedule.js`, the engine of a first-year course planner
for engineering students, and proves properties of that model. The planner has three inputs:

- a course catalogue: branches of records, each record with a department, a number, its
  offerings, its units, its prerequisites, and a credit/quarter status;
- a default year plan per major;
- a log of credit events, each a list of "remove this course" operations.

From these the engine derives the student's schedule.

1. `setBasePlan` resets the status of every record, chooses the major's template and marks
   every record the template names.
2. `computeNewSchedule` copies the base plan and the catalogue, then replays the log
   operation by operation.
3. Each `removeCourse` frees a course's slot and fills it from the same branch: with the
   next course that is not yet taken, is offered that quarter and has its prerequisites
   complete. If there is none, a filler `CORE<n>` slot fills it.
4. The fix-up passes `fixCoen12`, `moveEngr1` and `fixUnits` then run.
5. Finally `fixCI` places the C&I pair.

The project's modules follow the source's sections:

- `Wrappers` (`Option`) and `Assoc`. `Assoc` models JavaScript objects as ordered association
  lists. Insertion order matters: `getACoreForQuarter` returns the first filler key in `for … in`
  order.
- `Numerals`: the decimal text of a filler number.
- `Courses` and `Eligibility`: catalogue lookups, the three eligibility tests, and the
  `nextCourseAfter` scan.
- `Schedules`: quarter plans and the filler-slot helpers.
- `Fixups`: `fixCoen12`, `moveEngr1`, `fixUnits`, `fixCI`.
- `Derivation`: `removeCourse`.
- `CreditEvents`: the `getEquivalent*` translators.
- `BasePlans`: `setBasePlan`.
- `Recompute`: the modification log and `computeNewSchedule`.

These are pure functions, each with the lemmas that state what it does.

Two further modules tie this to the source's imperative code:

- `Passes` writes the driver loops and statement sequences of the source as methods on values,
  each proved equal to the function that specifies it: the unit sums, `nextCore`, the scan
  of `nextCourseAfter`, the quarter searches of `removeCourse` and `moveEngr1`, the trimming
  loops of `fixUnits`, the reset and marking loops of `setBasePlan`, the replay loops of
  `computeNewSchedule`, and the fix-up and `removeCourse` bodies. The short scans inside the
  lookups and predicates (`getCourseId`, `offeredThisQuarter`, `prereqsCompleted`,
  `nextOffering`, `numberOfCoresInQuarter`, `getACoreForQuarter`, the key split of
  `getCourseLocFromTitle` and `removeCourse`, and the record search of `removeCourse` at
  lines 556-564) are written as recursive functions only.
- `Engine.Planner` holds the source's global state as fields: `CourseCatalogue`, `AllCourses`,
  `WorkingSchedule`, `BasePlan` and `ModLog`. Its methods change those fields in place and
  keep a class invariant.

The catalogue and the two templates are inputs taken from data files that are not part of this
model. What the engine relies on is stated as preconditions:

- `Courses.WellFormed`: every prerequisite resolves, every record sits in its own branch, and
  the CORE, ENGR1, COEN12 and C&I records exist.
- `BasePlans.TemplateOk`: every non-filler key of a template names a record.
- `Schedules.ScheduleOk`: every slot resolves.

## Model

| member | source | states |
|---|---|---|
| Courses.GetCourse | js/compute_new_schedule.js:30-32 | a record comes back exactly when the index lies inside the branch, and it is the record at that index; otherwise the result is `undefined` |
| Courses.GetCourseId | js/compute_new_schedule.js:41-48 | a non-negative result is the first index whose record has that department and number; -1 exactly when the branch is missing or no record matches |
| Courses.GetCourseIdShape | js/compute_new_schedule.js:41-48 | indices depend only on department and number, so writing credit or quarter status never moves a record |
| Courses.FirstInBranch | js/compute_new_schedule.js:52-53 | the first prerequisite in the given branch; none exactly when no prerequisite is in that branch |
| Courses.ParentCourseInSameBranch | js/compute_new_schedule.js:50-62 | null when no prerequisite is in the branch; otherwise the record of the first such prerequisite; when those prerequisites resolve, the result is non-null exactly when one exists |
| Courses.FirstDigitFrom | js/compute_new_schedule.js:231-235 | the loop stops at the first digit at or after the start, or at the end, and skips only non-digits |
| Courses.SplitKey | js/compute_new_schedule.js:231-237 | department and number concatenate back to the key; the department keeps at least the first character and holds no digit after it; the number is empty or starts with a digit |
| Courses.FirstNaming | js/compute_new_schedule.js:240-246 | the first branch in catalogue order that has a record with that department and number; none exactly when no branch has one |
| Courses.FindRecordFrom | js/compute_new_schedule.js:240-246 | the branch and index of the first record with that department and number, scanning branches in order; none exactly when no branch has one |
| Courses.GetCourseLocFromTitle | js/compute_new_schedule.js:229-246 | a found location's department and number spell the title, are its split at the first digit, and resolve in the returned branch, which is the first such branch; `undefined` exactly when no branch has such a record |
| Courses.UpdateRecord | js/compute_new_schedule.js:579 | writing one record changes only that record, keeps every branch's length and keeps the branch order |
| Courses.CreditThenTaken | js/compute_new_schedule.js:759-760 | setting `credit` and then `quarter_taken` writes both fields of the one record and nothing else |
| Eligibility.TakenBeforeOrDuringThisQuarter | js/compute_new_schedule.js:70-90 | true exactly when credit is YES and either `quarter_taken` is empty or it is no later than the target quarter |
| Eligibility.OfferedThisQuarter | js/compute_new_schedule.js:98-104 | true exactly when the quarter is among the offerings |
| Eligibility.PrereqsCompleted | js/compute_new_schedule.js:112-138 | true exactly when every prerequisite has credit YES, was not taken in spring, and was taken in winter only if the target is spring; a fall or empty `quarter_taken` never fails it (the `'fall quarter'` comparison at line 131 never matches) |
| Eligibility.AfterFallResult | js/compute_new_schedule.js:187-197 | the fall-case loop yields winter if winter is offered, else spring if spring is offered, else nothing |
| Eligibility.NextOffering | js/compute_new_schedule.js:184-205 | none from spring; from fall, winter if offered, else spring if offered, else none; from winter, spring if offered, else none; any result is offered and strictly later |
| Eligibility.SearchStartAfterParent | js/compute_new_schedule.js:152-159 | when every record of the branch carries its branch name, the scan starts one past the first record named by the first same-branch prerequisite; without such a prerequisite, or when it names nothing, one past the course itself |
| Eligibility.ScanFrom | js/compute_new_schedule.js:163-172 | a result is the first index at or after the start whose course passes all three tests; none means every course from there to the branch end fails one |
| Eligibility.NextCourseAfter | js/compute_new_schedule.js:147-176 | a result lies at or after the start, and its course is the first there to pass all three tests; null exactly when every course from the start to the branch end fails one |
| Eligibility.NextCourseAfterAsWritten | js/compute_new_schedule.js:147-176 | the loop as written crashes exactly when the start lies past the branch end; otherwise it agrees with `NextCourseAfter` |
| Eligibility.LastCourseOfBranchCrashes | js/compute_new_schedule.js:161-162 | removing the last course of a branch makes the scan read past the branch end |
| Numerals.DigitsValueOfNatToString | js/compute_new_schedule.js:270-272 | the decimal text of a filler number reads back as that number |
| Numerals.NatToStringInjective | js/compute_new_schedule.js:270-272 | different filler numbers give different keys |
| Schedules.CoreNumberOfCoreKey | js/compute_new_schedule.js:270-272 | `'CORE' + n` carries its number n |
| Schedules.NumberOfCoresInQuarter | js/compute_new_schedule.js:249-257 | the count is at most the number of keys, and zero exactly when no key contains `CORE` |
| Schedules.GetACoreForQuarter | js/compute_new_schedule.js:259-266 | the first key, in insertion order, that contains `CORE`; -1 exactly when the count is zero |
| Schedules.CoresDelete | js/compute_new_schedule.js:479-481 | deleting a present filler key lowers the filler count by exactly one; deleting any other key keeps it |
| Schedules.NextCoreFrom | js/compute_new_schedule.js:270-273 | the search returns the first number from its start whose `CORE` key is absent |
| Schedules.NextCoreNumber | js/compute_new_schedule.js:268-274 | `nextCore` picks the smallest n whose key `CORE<n>` is absent: every smaller one is present |
| Schedules.UnitsIgnoreEngr1 | js/compute_new_schedule.js:277-289 | adding or deleting ENGR1 never changes the unit total |
| Schedules.UnitsDelete | js/compute_new_schedule.js:277-289 | deleting any other key lowers the total by exactly that slot's units |
| Schedules.QuarterWith | js/compute_new_schedule.js:212-222 | the first quarter, in fall–winter–spring order, holding the key; empty exactly when no quarter holds it |
| Assoc.Put | js/compute_new_schedule.js:605-617 | the key maps to the new value, every other key keeps its value, and a new key goes at the end |
| Assoc.Delete | js/compute_new_schedule.js:578 | the key is gone, every other key keeps its value, and deleting a missing key changes nothing |
| Fixups.DeleteCore | js/compute_new_schedule.js:434 | deletes the first filler key if there is one, else nothing |
| Fixups.CoreSlot | js/compute_new_schedule.js:449-461 | the filler slot copied from the first CORE record resolves in the catalogue |
| Fixups.FixCoen12 | js/compute_new_schedule.js:407-462 | a schedule whose slots resolve keeps that property |
| Fixups.FixCoen12Moves | js/compute_new_schedule.js:407-462 | when COEN12 is misplaced, it leaves winter and spring holds it as the slot of its `coen_courses` record, with branch `coen_courses`; spring also loses its first filler; winter gains the smallest free `CORE<n>`; fall and every other key stay |
| Fixups.Coen12IsNotCore | js/compute_new_schedule.js:434-436 | `COEN12` is not a filler key, so the spring delete never removes it |
| Fixups.Engr1Decision | js/compute_new_schedule.js:298-374 | a move always targets fall or winter, and never the quarter ENGR1 is already in |
| Fixups.DropEngr1 | js/compute_new_schedule.js:328-337 | the drop never touches spring |
| Fixups.DropEngr1KeepsOthers | js/compute_new_schedule.js:328-337 | the drop changes no key but ENGR1 |
| Fixups.MoveEngr1 | js/compute_new_schedule.js:298-374 | the move keeps every slot resolving and keeps the catalogue's shape |
| Fixups.MoveEngr1KeepsOthers | js/compute_new_schedule.js:298-374 | spring and every key other than ENGR1 are unchanged |
| Fixups.MoveEngr1Drops | js/compute_new_schedule.js:328-337 | when ENGR1 is not in both fall and winter and both quarters exceed 17 units excluding ENGR1, ENGR1 ends up in neither, and its `quarter_taken` is empty |
| Fixups.MoveEngr1Places | js/compute_new_schedule.js:339-373 | when ENGR1 is not in both fall and winter, and fall or winter is within 17 units: ENGR1 ends up in fall exactly when fall has no more units than winter, and in winter otherwise; unless it was already there, it is written there as the literal ENGR1 slot and its record names that quarter; otherwise record and slot are left as they are |
| Fixups.TrimCoresMeetsCap | js/compute_new_schedule.js:475-489 | after the loop the quarter has at most 19 units excluding ENGR1, or has no filler left; only filler keys are deleted; a quarter within the cap is untouched |
| Fixups.FixUnits | js/compute_new_schedule.js:467-522 | a schedule whose slots resolve keeps that property |
| Fixups.FixUnitsMeetsCap | js/compute_new_schedule.js:467-522 | every quarter ends within 19 units excluding ENGR1 or without filler keys, and every non-filler key is unchanged |
| Fixups.Finish | js/compute_new_schedule.js:532-536 | the recursion's base case keeps every slot resolving and keeps the catalogue's shape |
| Fixups.CISlot | js/compute_new_schedule.js:382-385 | the C&I record's slot resolves |
| Fixups.PlaceCIScheduleOk | js/compute_new_schedule.js:378-399 | placing the pair keeps every slot resolving |
| Fixups.PlaceCI | js/compute_new_schedule.js:378-399 | placing the pair keeps every slot resolving and keeps the catalogue's shape |
| Fixups.FixCI | js/compute_new_schedule.js:376-402 | `fixCI` keeps every slot resolving and keeps the catalogue's shape |
| Fixups.CIRecordsPresent | js/compute_new_schedule.js:377-397 | C&I1 and C&I2 have valid indices in every status copy |
| Fixups.PlaceCIQuarter | js/compute_new_schedule.js:379-385 | placing one half of the pair deletes exactly the quarter's first filler, adds the C&I key and keeps every other key |
| Fixups.PlaceCIEffect | js/compute_new_schedule.js:378-399 | each of the two chosen quarters loses its first filler and gains its half of the pair, the third quarter stays, and the C&I1 and C&I2 records name the first and the second chosen quarter |
| Fixups.PlaceSlotsEffect | js/compute_new_schedule.js:381-396 | the two writes touch only the two chosen quarters |
| Fixups.CIRecordsDistinct | js/compute_new_schedule.js:377-386 | C&I1 and C&I2 are different records |
| Fixups.CIKeysAreNotCores | js/compute_new_schedule.js:382-396 | the C&I keys are not filler keys |
| Fixups.FillerReplacedByPut | js/compute_new_schedule.js:379-385 | writing a non-filler key after deleting a quarter's first filler leaves that filler gone, the key holding its slot, and every other key as before |
| Fixups.PlaceCIReplaces | js/compute_new_schedule.js:378-399 | C&I1 replaces the first filler of the first chosen quarter and C&I2 that of the second; the third quarter is unchanged; the two records name the two quarters |
| Fixups.FixCIPlaces | js/compute_new_schedule.js:376-402 | when C&I1 already has a quarter, or no pair of fall+winter or winter+spring both hold a filler, nothing changes; otherwise with fillers in fall and winter, C&I1 replaces fall's first filler and C&I2 winter's, spring is unchanged and the records name fall and winter; failing that, the same in winter and spring with fall unchanged |
| Derivation.After | js/compute_new_schedule.js:619 | the recursion's next quarter is offered and strictly later, or the base case; either way a measure strictly drops, so the recursion terminates |
| Derivation.WellFormedBranchResolves | js/compute_new_schedule.js:163 | in a well-formed catalogue, every prerequisite of every record in a branch resolves |
| Derivation.SlotId | js/compute_new_schedule.js:573 | the slot's record exists at the index `getCourseId` gives |
| Derivation.Vacate | js/compute_new_schedule.js:578-579 | the key is deleted from that quarter and nothing else in the schedule changes |
| Derivation.VacateOk | js/compute_new_schedule.js:578-579 | deleting the key keeps every slot resolving |
| Derivation.Fill | js/compute_new_schedule.js:585-595 | the new key holds the new slot in that quarter; every other key and every other quarter stays |
| Derivation.Earn | js/compute_new_schedule.js:602-603 | the successor record gets credit YES and `quarter_taken` set to the quarter |
| Derivation.Successor | js/compute_new_schedule.js:574 | a successor is a record of the removed slot's branch |
| Derivation.Step | js/compute_new_schedule.js:567-620 | one call either stops, or continues at a strictly later quarter |
| Derivation.StepOk | js/compute_new_schedule.js:567-620 | one call keeps every slot resolving and keeps the catalogue's shape |
| Derivation.StepPlacesSuccessor | js/compute_new_schedule.js:598-620 | with a successor, the removed key is gone from Q and the successor's key holds its slot in Q; the successor has credit YES and names Q; nothing else in Q and no other quarter changes; the recursion continues with that key at `nextOffering` |
| Derivation.StepTakesFiller | js/compute_new_schedule.js:581-597 | without a successor, the removed key is gone from Q and Q gains exactly `CORE<n>` for the smallest unused n; nothing else in Q and no other quarter changes; the recursion stops |
| Derivation.StepRecordsRemoval | js/compute_new_schedule.js:579 | unless the successor is the removed record itself, the removed record's `quarter_taken` becomes the first quarter that still holds its key after the delete |
| Derivation.Chain | js/compute_new_schedule.js:530-621 | the whole chain keeps every slot resolving and keeps the catalogue's shape |
| Derivation.Remove | js/compute_new_schedule.js:530-621 | a completed removal keeps every slot resolving and keeps the catalogue's shape |
| Derivation.RemovePlaced | js/compute_new_schedule.js:530-620 | a placed key is acted on at the first quarter Q holding it, and no other quarter of the schedule changes in that call. Without a successor, the key leaves Q, Q gains exactly `CORE<n>` for the smallest unused n, and the removal ends with the three fix-up passes on that state. With a successor, its key takes the place in Q with its slot, its record gets credit YES and names Q, and the removal goes on with it at its next offering |
| Derivation.RemoveUnplacedKey | js/compute_new_schedule.js:547-567 | a key in no quarter leaves the schedule unchanged; it gives credit YES only to the first record whose department and number split the key at its first digit; it throws exactly when there is no such record |
| CreditEvents.ReadinessExam | js/compute_new_schedule.js:636-638 | one operation, removing MATH9 |
| CreditEvents.ProgrammingExperience | js/compute_new_schedule.js:641-643 | one operation, removing COEN10 |
| CreditEvents.Removals | js/compute_new_schedule.js:650-656 | one operation per fulfilled course, in order, keyed by its department and number |
| CreditEvents.RemovalsAppend | js/compute_new_schedule.js:650-656 | the operations of two lists of fulfilled courses are the two lists' operations in order |
| CreditEvents.TransferCredit | js/compute_new_schedule.js:647-659 | one removal per course the transfer fulfils, in order |
| CreditEvents.FirstRange | js/compute_new_schedule.js:668-670 | the first score range that holds the score; none exactly when no range does |
| CreditEvents.APTestCredit | js/compute_new_schedule.js:663-692 | with several ranges, the removals of the first range holding the score, or none; with one range, its removals when the score is in it, else none |
| BasePlans.ResetCatalogue | js/compute_new_schedule.js:728-733 | every record gets credit NO and an empty `quarter_taken`; nothing else changes |
| BasePlans.ResetBranch | js/compute_new_schedule.js:729-732 | every record of the branch is reset, and the branch keeps its order |
| BasePlans.ResetBranchTwice | js/compute_new_schedule.js:728-733 | resetting is idempotent |
| BasePlans.MarkQuarter | js/compute_new_schedule.js:745-761 | marking a quarter changes only status |
| BasePlans.MarkQuarterEffect | js/compute_new_schedule.js:745-761 | after one quarter, a record is YES with that quarter exactly when a non-filler key of the quarter names it; any other record is unchanged |
| BasePlans.MarkHead | js/compute_new_schedule.js:745-761 | the quarter's loop is its first entry's write followed by the loop over the rest |
| BasePlans.MarkEntryEffect | js/compute_new_schedule.js:747-760 | one entry writes YES and the quarter to its own record only, and a filler entry writes nothing |
| BasePlans.MarkPlan | js/compute_new_schedule.js:744-762 | marking the plan changes only status |
| BasePlans.MarkPlanEffect | js/compute_new_schedule.js:744-762 | each record ends with the status of the LAST quarter whose keys name it, or keeps its own |
| BasePlans.SetBasePlan | js/compute_new_schedule.js:726-764 | the plan is the cse template, the wde template, or the previous plan for any other major; the catalogue keeps its shape |
| BasePlans.SetBasePlanMarks | js/compute_new_schedule.js:726-764 | every record keeps its static fields; it has credit YES exactly when the chosen plan names it, and then `quarter_taken` is the last quarter that does; otherwise NO and empty |
| Recompute.ApplyMods | js/compute_new_schedule.js:705-708 | an empty id changes nothing; otherwise the id maps to the operations, every other id is unchanged, and a new id goes last |
| Recompute.RemoveMods | js/compute_new_schedule.js:710-714 | an empty id changes nothing; otherwise the id is gone and every other id is unchanged |
| Recompute.RetractRestores | js/compute_new_schedule.js:705-714 | submitting a new event and then retracting it restores the log |
| Recompute.FlattenAppend | js/compute_new_schedule.js:778-784 | a newly submitted event's operations replay after all earlier ones |
| Recompute.Replay | js/compute_new_schedule.js:778-784 | replaying keeps every slot resolving and keeps the catalogue's shape |
| Recompute.ReplayAppend | js/compute_new_schedule.js:778-784 | replaying two runs of operations is replaying the first, then the second from where it stopped, aborting if the first throws |
| Recompute.ReplayAborts | js/compute_new_schedule.js:782 | once an operation throws, the whole recomputation throws |
| Recompute.StoppedInside | js/compute_new_schedule.js:779-783 | an operation that throws stops the replay of the whole list, and the state left is the one the operations before it computed |
| Recompute.StoppedAtExtends | js/compute_new_schedule.js:778-784 | a replay that stopped inside one event stopped at the same state in the whole log |
| Recompute.ComputeNewSchedule | js/compute_new_schedule.js:769-788 | a completed recomputation keeps every slot resolving and keeps the catalogue's shape |
| Recompute.ComputeEmptyLog | js/compute_new_schedule.js:769-788 | with no events the result is the base plan with the C&I pair placed |
| Recompute.ComputeAddedEvent | js/compute_new_schedule.js:769-788 | a new event's operations replay after every earlier event, before `fixCI` |
| Recompute.RetractionRestoresSchedule | js/compute_new_schedule.js:705-714 | adding and then retracting an event gives back the earlier schedule |
| Passes.TotalUnitsWithoutEngr1 | js/compute_new_schedule.js:277-289 | the summing loop computes the unit total that skips ENGR1 |
| Passes.NextCore | js/compute_new_schedule.js:268-274 | the counting loop returns `nextCore`'s key |
| Passes.NextCourseAfter | js/compute_new_schedule.js:147-176 | the while loop computes the scan's result |
| Passes.FixCoen12 | js/compute_new_schedule.js:407-462 | the statement sequence computes `FixCoen12` |
| Passes.MoveEngr1 | js/compute_new_schedule.js:298-374 | the quarter search (the `FirstQuarterWith` loop), the two summing loops and the branches compute the move on the schedule and on ENGR1's record |
| Passes.TrimQuarter | js/compute_new_schedule.js:475-489 | the while loop computes the trimmed quarter |
| Passes.FixUnits | js/compute_new_schedule.js:467-522 | the three while loops compute `FixUnits` |
| Passes.Finish | js/compute_new_schedule.js:531-536 | the base case computes the three passes in order |
| Passes.FixCIWith | js/compute_new_schedule.js:376-402 | the statements compute the placement |
| Passes.FixCI | js/compute_new_schedule.js:376-402 | the statements compute `FixCI` |
| Passes.RemoveCourseAt | js/compute_new_schedule.js:530-621 | the recursive method computes the chain |
| Passes.RemoveCourse | js/compute_new_schedule.js:530-621 | the method computes `Remove`, including the throw for a key that is nowhere |
| Passes.FirstQuarterWith | js/compute_new_schedule.js:540-545 | the loop finds the first quarter holding the key |
| Passes.ResetBranch | js/compute_new_schedule.js:729-732 | the inner loop computes the reset branch |
| Passes.ResetCatalogue | js/compute_new_schedule.js:728-733 | the two loops compute the reset catalogue |
| Passes.MarkQuarter | js/compute_new_schedule.js:745-761 | the loop over one quarter's keys computes its marks |
| Passes.MarkPlan | js/compute_new_schedule.js:744-762 | the loop over the quarters computes the marked catalogue |
| Passes.SetBasePlan | js/compute_new_schedule.js:726-764 | reset, switch and marking compute `SetBasePlan` |
| Passes.ReplayOps | js/compute_new_schedule.js:779-783 | the inner loop replays one event; it reports a throw exactly when the replay aborts, and then returns the state the operations before the throwing one left; otherwise it returns the replayed state |
| Passes.ReplayLog | js/compute_new_schedule.js:778-784 | the outer loop replays the whole log in insertion order; it reports a throw exactly when the replay aborts, and then returns the state the operations before the throwing one left; otherwise it returns the replayed state |
| Passes.ComputeNewSchedule | js/compute_new_schedule.js:769-788 | copying, replaying and `fixCI` compute `ComputeNewSchedule`, and report a throw exactly when it aborts, with the state the operations before the throwing one left |
| Engine.ConsistentShape | js/compute_new_schedule.js:763 | replacing the catalogue by a status copy, with `AllCourses` that copy, keeps the engine's invariant |
| Engine.SetBasePlanKeeps | js/compute_new_schedule.js:726-764 | `setBasePlan` keeps the engine's invariant |
| Engine.Planner.ApplyMods | js/compute_new_schedule.js:705-708 | `ModLog` becomes `ApplyMods` of the old log; no other field changes |
| Engine.Planner.RemoveMods | js/compute_new_schedule.js:710-714 | `ModLog` becomes `RemoveMods` of the old log; no other field changes |
| Engine.Planner.SetBasePlan | js/compute_new_schedule.js:726-764 | the catalogue and base plan become `SetBasePlan` of the old ones, `AllCourses` becomes the catalogue, and the invariant holds |
| Engine.Planner.RemoveCourse | js/compute_new_schedule.js:530-621 | `AllCourses` and `WorkingSchedule` become `Remove` of the old ones; on a throw they stay as they were and `false` is returned |
| Engine.Planner.ComputeNewSchedule | js/compute_new_schedule.js:769-788 | the result and the working state are `ComputeNewSchedule` of the catalogue, base plan and log; a throw gives no schedule and leaves `AllCourses` and `WorkingSchedule` as the operations before the throwing one left them |

## Left out

- Fixups.FixCoen12, Fixups.FixUnits, Fixups.MoveEngr1, Fixups.FixCI, Derivation.Chain, Derivation.Remove, Recompute.Replay, Recompute.ComputeNewSchedule: their own `ensures` state only that slots keep resolving. What each computes is stated by the lemmas beside it.
- Deep copies with `jQuery.extend(true, …)` (lines 737, 740, 763, 775-776) are value copies. Dafny values cannot alias, so the copies need no code.
- `console.log` diagnostics are not modelled. The "cannot get below 19 units" messages of `fixUnits` are only the loop exit.
- The name and description strings of slots are left out. They are carried along and never inspected.
- Offerings and quarters are a closed `Quarter` type, and credit is a closed `Credit` type. JavaScript's loose `==` on strings and numbers, `parseInt` on unit strings, and `null`/`undefined` inputs are not modelled.
- `applyMods` with a `null` or `undefined` operation list cannot be expressed. An empty list is truthy in JavaScript, so it is stored as the source stores it.
- Dynamic dispatch `window[record['function']].apply(...)` (line 782) is a closed `Operation` type. Its only variant is `RemoveCourse(key)`.
- Key order in `ModLog` follows insertion order. JavaScript moves integer-like keys to the front; event ids are taken to be non-numeric.
- `removeCourse('BASECASE', -1)` (lines 570 and 597) is the `Stop` pointer. The recursion's `-1` from `nextOffering` is the same pointer.
- The state after a thrown operation: the source keeps the effects of the operations before it, and so does `Engine.Planner.ComputeNewSchedule` (its contract states this through `Recompute.StoppedAt`). The only throw the model has is `removeCourse` on a key that is in no quarter and names no record (line 567); that path writes nothing before it, so `Engine.Planner.RemoveCourse` leaves the state unchanged.
- Derivation.Successor uses the corrected scan `Eligibility.NextCourseAfter`, in which a search start past the branch end means "no successor". The source throws a TypeError there instead (lines 161-162, see Findings), and in a recursive call of `removeCourse` it does so after earlier calls already wrote (lines 578-579, 602-603, 605-617). So `Derivation.Step`, `Derivation.Chain`, `Derivation.Remove`, `Recompute.Replay`, `Recompute.ComputeNewSchedule`, `Engine.Planner.RemoveCourse` and `Engine.Planner.ComputeNewSchedule` put a `CORE<n>` filler and continue where the source aborts the whole recomputation and leaves those partial writes.
- `BasePlan` before the first `setBasePlan` is undefined in the source. The model starts with three empty quarters.
- The data files `DefaultScheduleCSE`, `DefaultScheduleWDE`, `CourseCatalogue`, `APTests` and `TransferCredit` are inputs. Their shape is stated by `Courses.WellFormed`, `BasePlans.TemplateOk` and `Schedules.ScheduleOk`.
- `fixCI` stores the C&I record object itself (lines 382, 385) rather than a copied slot. The model stores an equal slot value, so no later write through the record can reach the schedule.
- `js/view_controller.js` is the user interface and is not part of this model.

## Findings

| source | as written | input that shows it | evidently intended | confidence | as-written member | corrected member |
|---|---|---|---|---|---|---|
| js/compute_new_schedule.js:161-162 | the scan reads `getCourse(branch, current_id)` for the start index before checking it against the branch length, so line 162 reads a field of `undefined` | removing the only (or last) course of a branch, e.g. COEN12 as the single record of `coen_courses`, in winter | no successor, so the slot is filled with a CORE course | not executed | Eligibility.NextCourseAfterAsWritten, Eligibility.LastCourseOfBranchCrashes | Eligibility.NextCourseAfter |
