/**
 * The engine's state and the functions of js/compute_new_schedule.js that
 * update it in place: `window.CourseCatalogue`, `window.AllCourses`,
 * `window.WorkingSchedule`, `window.BasePlan` and `window.ModLog` as the
 * fields of one object, and each state-changing entry point as a method
 * proved to reach the state the functional model describes.
 */
module Engine {
  import opened Wrappers
  import opened Assoc
  import opened Courses
  import opened Schedules
  import opened Derivation
  import opened CreditEvents
  import opened BasePlans
  import opened Recompute
  import Passes

  /**
   * The invariant of the engine's state: a well-formed catalogue, templates
   * and base plan whose slots resolve in it and name its records, and a
   * status copy of the same shape with a working schedule whose slots resolve.
   */
  ghost predicate Consistent(cat: Catalogue, cse: Schedule, wde: Schedule, base: Schedule, st: Session)
  {
    && WellFormed(cat)
    && ScheduleOk(cat, cse) && TemplateOk(cat, cse)
    && ScheduleOk(cat, wde) && TemplateOk(cat, wde)
    && ScheduleOk(cat, base) && TemplateOk(cat, base)
    && SessionOk(cat, st)
  }

  /** A template keeps resolving in a status copy of the catalogue. */
  lemma TemplateShape(a: Catalogue, b: Catalogue, s: Schedule)
    requires SameShape(a, b) && ScheduleOk(a, s) && TemplateOk(a, s)
    ensures ScheduleOk(b, s) && TemplateOk(b, s)
  {
    ScheduleOkShape(a, b, s);
    MarkableShape(a, b, s.fall);
    MarkableShape(a, b, s.winter);
    MarkableShape(a, b, s.spring);
  }

  /** Replacing the catalogue by a status copy, with `AllCourses` that copy, keeps the invariant. */
  lemma ConsistentShape(cat: Catalogue, cat': Catalogue, cse: Schedule, wde: Schedule, base: Schedule, st: Session)
    requires Consistent(cat, cse, wde, base, st) && SameShape(cat, cat')
    ensures Consistent(cat', cse, wde, base, Session(cat', st.schedule))
  {
    WellFormedShape(cat, cat');
    TemplateShape(cat, cat', cse);
    TemplateShape(cat, cat', wde);
    TemplateShape(cat, cat', base);
    ScheduleOkShape(cat, cat', st.schedule);
  }

  /** The invariant holds for any of the three plans it vouches for. */
  lemma ConsistentPlan(cat: Catalogue, cse: Schedule, wde: Schedule, base: Schedule, plan: Schedule, st: Session)
    requires Consistent(cat, cse, wde, base, st) && (plan == cse || plan == wde || plan == base)
    ensures Consistent(cat, cse, wde, plan, st)
  {
  }

  /** `setBasePlan` keeps the invariant, with `AllCourses` the newly marked catalogue. */
  lemma SetBasePlanKeeps(cat: Catalogue, cse: Schedule, wde: Schedule, base: Schedule, st: Session, major: string)
    requires Consistent(cat, cse, wde, base, st)
    ensures var r := BasePlans.SetBasePlan(cat, cse, wde, base, major);
      Consistent(r.0, cse, wde, r.1, Session(r.0, st.schedule))
  {
    var r := BasePlans.SetBasePlan(cat, cse, wde, base, major);
    ConsistentShape(cat, r.0, cse, wde, base, st);
    ConsistentPlan(r.0, cse, wde, base, r.1, Session(r.0, st.schedule));
  }

  class Planner {
    /** `window.DefaultScheduleCSE` and `window.DefaultScheduleWDE`, the major templates. */
    const cse: Schedule
    const wde: Schedule
    /** `window.CourseCatalogue`: the catalogue with base-plan status. */
    var catalogue: Catalogue
    /** `window.AllCourses`: the status copy a derivation pass writes. */
    var allCourses: Catalogue
    /** `window.WorkingSchedule`. */
    var workingSchedule: Schedule
    /** `window.BasePlan`. */
    var basePlan: Schedule
    /** `window.ModLog`. */
    var modLog: ModLog

    /** What the data files give and every entry point keeps. */
    ghost predicate Valid()
      reads this
    {
      Consistent(catalogue, cse, wde, basePlan, Current())
    }

    /** The pair a derivation pass works on. */
    function Current(): Session
      reads this
    {
      Session(allCourses, workingSchedule)
    }

    /**
     * The state after the data files are loaded: no base plan chosen yet
     * (three empty quarters) and an empty log.
     */
    constructor(cat: Catalogue, cse: Schedule, wde: Schedule)
      requires WellFormed(cat)
      requires ScheduleOk(cat, cse) && TemplateOk(cat, cse) && ScheduleOk(cat, wde) && TemplateOk(cat, wde)
      ensures Valid()
      ensures this.cse == cse && this.wde == wde && catalogue == cat && allCourses == cat
      ensures basePlan == Schedule([], [], []) && workingSchedule == Schedule([], [], []) && modLog == []
    {
      this.cse := cse;
      this.wde := wde;
      catalogue := cat;
      allCourses := cat;
      basePlan := Schedule([], [], []);
      workingSchedule := Schedule([], [], []);
      modLog := [];
    }

    // -------------------------------------------------------------------------
    // Modification log

    /** `applyMods(id, mods)`. */
    method ApplyMods(id: string, mods: seq<Operation>)
      requires Valid()
      modifies this
      ensures modLog == Recompute.ApplyMods(old(modLog), id, mods)
      ensures catalogue == old(catalogue) && allCourses == old(allCourses)
      ensures workingSchedule == old(workingSchedule) && basePlan == old(basePlan)
      ensures Valid()
    {
      if id == "" {
        return;
      }
      modLog := Put(modLog, id, mods);
    }

    /** `removeMods(id)`. */
    method RemoveMods(id: string)
      requires Valid()
      modifies this
      ensures modLog == Recompute.RemoveMods(old(modLog), id)
      ensures catalogue == old(catalogue) && allCourses == old(allCourses)
      ensures workingSchedule == old(workingSchedule) && basePlan == old(basePlan)
      ensures Valid()
    {
      if id == "" {
        return;
      }
      modLog := Delete(modLog, id);
    }

    // -------------------------------------------------------------------------
    // The driver

    /**
     * `setBasePlan(maj)`: reset every record of `CourseCatalogue`, switch
     * `BasePlan` to the major's template (an unknown major keeps
     * the previous one), mark every record the plan names, and copy the
     * catalogue to `AllCourses`.
     */
    method SetBasePlan(major: string)
      requires Valid()
      modifies this
      ensures (catalogue, basePlan) == BasePlans.SetBasePlan(old(catalogue), cse, wde, old(basePlan), major)
      ensures allCourses == catalogue
      ensures workingSchedule == old(workingSchedule) && modLog == old(modLog)
      ensures Valid()
    {
      var marked, plan := Passes.SetBasePlan(catalogue, cse, wde, basePlan, major);
      SetBasePlanKeeps(catalogue, cse, wde, basePlan, Current(), major);
      Install(marked, plan);
    }

    /** Switch to a new status catalogue and base plan, copying the catalogue to `AllCourses`. */
    method Install(marked: Catalogue, plan: Schedule)
      requires Consistent(marked, cse, wde, plan, Session(marked, workingSchedule))
      modifies this
      ensures catalogue == marked && basePlan == plan && allCourses == marked
      ensures workingSchedule == old(workingSchedule) && modLog == old(modLog)
      ensures Valid()
    {
      catalogue := marked;
      basePlan := plan;
      allCourses := marked;
    }

    /**
     * `removeCourse(course_title)` on the engine's state, as
     * `computeNewSchedule` dispatches it; `false` is the TypeError the
     * source throws for a key that is nowhere, leaving the state as it was.
     */
    method RemoveCourse(key: string) returns (ok: bool)
      requires Valid()
      modifies this
      ensures catalogue == old(catalogue) && basePlan == old(basePlan) && modLog == old(modLog)
      ensures Valid()
      ensures match Remove(catalogue, old(Current()), key)
              case None => !ok && Current() == old(Current())
              case Some(st) => ok && Current() == st
    {
      var r := Passes.RemoveCourse(catalogue, Current(), key);
      if r.None? {
        return false;
      }
      allCourses := r.value.all;
      workingSchedule := r.value.schedule;
      ok := true;
    }

    /**
     * `computeNewSchedule()`: copy the base plan to `WorkingSchedule` and the
     * catalogue to `AllCourses`, replay every operation of the log in
     * order, run `fixCI` and return the working schedule. `None` is a
     * replayed operation throwing, which ends the recomputation there and
     * leaves the state the operations before it computed.
     */
    method ComputeNewSchedule() returns (r: Option<Schedule>)
      requires Valid()
      modifies this
      ensures catalogue == old(catalogue) && basePlan == old(basePlan) && modLog == old(modLog)
      ensures Valid()
      ensures match Recompute.ComputeNewSchedule(catalogue, basePlan, modLog)
              case None => r.None? && Recompute.StoppedAt(catalogue, Session(catalogue, basePlan), Recompute.Flatten(modLog), Current())
              case Some(st) => r == Some(st.schedule) && Current() == st
    {
      var ok, st := Passes.ComputeNewSchedule(catalogue, basePlan, modLog);
      allCourses := st.all;
      workingSchedule := st.schedule;
      r := if ok then Some(st.schedule) else None;
    }
  }
}
