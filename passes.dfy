/**
 * The passes of js/compute_new_schedule.js that change the working state
 * step by step, written as the source writes them: loops and statement
 * sequences over a copy of `AllCourses` and `WorkingSchedule`, each proved
 * to produce the state the functional model of the same pass describes.
 */
module Passes {
  import opened Wrappers
  import opened Assoc
  import opened Courses
  import opened Eligibility
  import opened Schedules
  import opened Fixups
  import opened Derivation
  import opened BasePlans
  import CreditEvents
  import Recompute

  // ---------------------------------------------------------------------------
  // Loops over one quarter

  /** `computeTotalUnitsWithoutEngr1(quarter)`: the loop adding up every slot's units but ENGR1's. */
  method TotalUnitsWithoutEngr1(p: Plan) returns (units: nat)
    ensures units == ComputeTotalUnitsWithoutEngr1(p)
  {
    units := 0;
    var i := 0;
    while i < |p|
      invariant 0 <= i <= |p|
      invariant units + ComputeTotalUnitsWithoutEngr1(p[i..]) == ComputeTotalUnitsWithoutEngr1(p)
    {
      assert p[i..][1..] == p[i + 1..];
      if p[i].key != "ENGR1" {
        units := units + p[i].val.units;
      }
      i := i + 1;
    }
  }

  /** `nextCore(quarter)`: counting up from 0 to the first `CORE<n>` the quarter does not have. */
  method NextCore(p: Plan) returns (key: string)
    ensures key == Schedules.NextCore(p)
  {
    var n := 0;
    while Has(p, CoreKey(n))
      invariant forall m :: 0 <= m < n ==> Has(p, CoreKey(m))
      invariant NextCoreFrom(p, n) == NextCoreNumber(p)
      decreases CoresFrom(p, n)
    {
      CoresFromDrops(p, n);
      n := n + 1;
    }
    key := CoreKey(n);
  }

  // ---------------------------------------------------------------------------
  // nextCourseAfter

  /**
   * `nextCourseAfter(course_data, id, quarter)`: move past the course's
   * parent (or the course itself), then walk the branch until a course is
   * eligible, giving up at the last record. A start past the end finds
   * nothing (the source reads `undefined` there; see `NextCourseAfterAsWritten`).
   */
  method NextCourseAfter(cat: Catalogue, branch: string, id: nat, q: Quarter) returns (r: Option<(Course, nat)>)
    requires branch in cat.branches && id < |cat.branches[branch]| && BranchResolves(cat, branch)
    ensures r == Eligibility.NextCourseAfter(cat, branch, id, q)
  {
    var s := cat.branches[branch];
    var current: nat;
    match ParentCourseInSameBranch(cat, s[id].prerequisites, branch) {
      case None =>
        current := id + 1;
      case Some(parent) =>
        current := GetCourseId(cat, parent.branch, parent.department, parent.number) + 1;
    }
    ghost var start := current;
    assert start == SearchStart(cat, branch, id);
    if current >= |s| {
      return None;
    }
    while !Eligible(cat, s[current], q)
      invariant start <= current < |s|
      invariant ScanFrom(cat, branch, current, q) == ScanFrom(cat, branch, start, q)
      decreases |s| - current
    {
      if current == |s| - 1 {
        return None;
      }
      current := current + 1;
    }
    r := Some((s[current], current));
  }

  // ---------------------------------------------------------------------------
  // The fixups

  /** `fixCoen12()`; its three early returns are the three conjuncts of `Coen12Misplaced`. */
  method FixCoen12(cat: Catalogue, s: Schedule) returns (r: Schedule)
    requires WellFormed(cat)
    ensures r == Fixups.FixCoen12(cat, s)
  {
    FixCoen12Cases(cat, s);
    r := s;
    if !Has(s.winter, "COEN12") && !Has(s.spring, "COEN12") {
      return;
    }
    if GetACoreForQuarter(s.fall).Some? && GetACoreForQuarter(s.winter).Some? && Has(s.spring, "COEN12") {
      return;
    }
    if Has(s.fall, "COEN10") || Has(s.fall, "COEN11") {
      return;
    }
    var id := GetCourseId(cat, "coen_courses", "COEN", "12");
    var coen12 := cat.branches["coen_courses"][id];
    r := r.(spring := DeleteCore(r.spring));
    r := r.(winter := Delete(r.winter, "COEN12"));
    r := r.(spring := Put(r.spring, "COEN12", SlotOf(coen12, "coen_courses")));
    var winterCore := NextCore(r.winter);
    r := r.(winter := Put(r.winter, winterCore, CoreSlot(cat)));
  }

  /**
   * `moveEngr1()`: ENGR1 leaves the plan when fall and winter are both
   * heavier than 17 units, else it moves to the lighter of the two.
   */
  method MoveEngr1(st: Session) returns (r: Session)
    requires "engineering_courses" in st.all.branches && 0 < |st.all.branches["engineering_courses"]|
    ensures r == Session(Engr1Record(st.all, st.schedule), MoveEngr1Schedule(st.schedule))
  {
    var s := st.schedule;
    var all := st.all;
    var quarterOffered := FirstQuarterWith(s, "ENGR1");
    var fall := TotalUnitsWithoutEngr1(s.fall);
    var winter := TotalUnitsWithoutEngr1(s.winter);
    if fall > Engr1Threshold && winter > Engr1Threshold {
      all := SetTaken(all, "engineering_courses", 0, None);
      if quarterOffered == Some(Fall) {
        s := s.(fall := Delete(s.fall, "ENGR1"));
      }
      if quarterOffered == Some(Winter) {
        s := s.(winter := Delete(s.winter, "ENGR1"));
      }
      return Session(all, s);
    }
    if fall <= winter && quarterOffered != Some(Fall) {
      all := SetTaken(all, "engineering_courses", 0, Some(Fall));
      if quarterOffered == Some(Winter) {
        s := s.(winter := Delete(s.winter, "ENGR1"));
      }
      s := s.(fall := Put(s.fall, "ENGR1", Engr1Slot));
    } else if fall > winter && quarterOffered != Some(Winter) {
      all := SetTaken(all, "engineering_courses", 0, Some(Winter));
      if quarterOffered == Some(Fall) {
        s := s.(fall := Delete(s.fall, "ENGR1"));
      }
      s := s.(winter := Put(s.winter, "ENGR1", Engr1Slot));
    }
    r := Session(all, s);
  }

  /**
   * One loop of `fixUnits()`: while the quarter carries more than 19 units
   * without ENGR1, delete its first filler; stop when there is none.
   */
  method TrimQuarter(p: Plan) returns (r: Plan)
    ensures r == TrimCores(p)
  {
    r := p;
    var units := TotalUnitsWithoutEngr1(r);
    while units > UnitCap
      invariant units == ComputeTotalUnitsWithoutEngr1(r)
      invariant TrimCores(r) == TrimCores(p)
      decreases NumberOfCoresInQuarter(r)
    {
      var madeChange := false;
      var core := GetACoreForQuarter(r);
      if core.Some? {
        madeChange := true;
        CoresDelete(r, core.value);
        r := Delete(r, core.value);
      }
      if !madeChange {
        break;
      }
      units := TotalUnitsWithoutEngr1(r);
    }
  }

  /** `fixUnits()`: the three quarters trimmed in turn. */
  method FixUnits(cat: Catalogue, s: Schedule) returns (r: Schedule)
    ensures r == Fixups.FixUnits(cat, s)
  {
    var fall := TrimQuarter(s.fall);
    var winter := TrimQuarter(s.winter);
    var spring := TrimQuarter(s.spring);
    r := Schedule(fall, winter, spring);
  }

  /** `removeCourse('BASECASE', -1)`: `fixCoen12()`, `moveEngr1()`, `fixUnits()`. */
  method Finish(cat: Catalogue, st: Session) returns (r: Session)
    requires WellFormed(cat) && SessionOk(cat, st)
    ensures r == Fixups.Finish(cat, st)
  {
    var s := FixCoen12(cat, st.schedule);
    var st2 := MoveEngr1(Session(st.all, s));
    var s3 := FixUnits(cat, st2.schedule);
    r := Session(st2.all, s3);
  }

  /**
   * `fixCI()` once the positions and slots of C&I1 and C&I2 are known: when
   * C&I1 has no quarter, delete the first filler of fall and of winter (else
   * of winter and of spring), write C&I1 and C&I2 in their place and mark
   * each record taken in its quarter.
   */
  method FixCIWith(st: Session, i1: nat, i2: nat, ci1: Slot, ci2: Slot) returns (r: Session)
    requires "CI_courses" in st.all.branches && i1 < |st.all.branches["CI_courses"]| && i2 < |st.all.branches["CI_courses"]|
    ensures r == Fixups.FixCIWith(st.all, st.schedule, i1, i2, ci1, ci2)
  {
    r := st;
    if st.all.branches["CI_courses"][i1].quarterTaken.None? {
      var s := st.schedule;
      if NumberOfCoresInQuarter(s.fall) > 0 && NumberOfCoresInQuarter(s.winter) > 0 {
        s := s.(fall := DeleteCore(s.fall), winter := DeleteCore(s.winter));
        s := s.(fall := Put(s.fall, "C&I1", ci1));
        var all := SetTaken(st.all, "CI_courses", i1, Some(Fall));
        s := s.(winter := Put(s.winter, "C&I2", ci2));
        all := SetTaken(all, "CI_courses", i2, Some(Winter));
        return Session(all, s);
      }
      if NumberOfCoresInQuarter(s.winter) > 0 && NumberOfCoresInQuarter(s.spring) > 0 {
        s := s.(winter := DeleteCore(s.winter), spring := DeleteCore(s.spring));
        s := s.(winter := Put(s.winter, "C&I1", ci1));
        var all := SetTaken(st.all, "CI_courses", i1, Some(Winter));
        s := s.(spring := Put(s.spring, "C&I2", ci2));
        all := SetTaken(all, "CI_courses", i2, Some(Spring));
        return Session(all, s);
      }
    }
  }

  /** `fixCI()` on the catalogue's own C&I records. */
  method FixCI(cat: Catalogue, st: Session) returns (r: Session)
    requires WellFormed(cat) && SessionOk(cat, st)
    ensures r == Fixups.FixCI(cat, st)
  {
    FixCIResolved(cat, st);
    var i1 := GetCourseId(cat, "CI_courses", "C&I", "1");
    var i2 := GetCourseId(cat, "CI_courses", "C&I", "2");
    r := FixCIWith(st, i1, i2, CISlot(cat, "1"), CISlot(cat, "2"));
  }

  // ---------------------------------------------------------------------------
  // removeCourse

  /**
   * `removeCourse(course_title, quarter)` for a quarter or the sentinel -1:
   * delete the slot and record where the course still sits, then put the
   * branch successor in its place and recurse at the successor's next
   * offering, or put a filler and run the fixups.
   */
  method RemoveCourseAt(cat: Catalogue, st: Session, key: string, at: Pointer) returns (r: Session)
    requires WellFormed(cat) && SessionOk(cat, st)
    ensures r == Chain(cat, st, key, at)
    decreases Rank(at)
  {
    if at.Stop? {
      r := Finish(cat, st);
      return;
    }
    var q := at.q;
    var course := Lookup(st.schedule.Get(q), key);
    if course.None? {
      r := Finish(cat, st);
      return;
    }
    var slot := course.value;
    var id := SlotId(cat, st, key, q);
    WellFormedBranchResolves(cat, slot.branch);
    var next := NextCourseAfter(cat, slot.branch, id, q);
    assert next == Successor(cat, st, key, q);
    var st1 := Vacate(st, key, q, slot.branch, id, slot.department + slot.number);
    VacateOk(cat, st, key, q, slot.branch, id, slot.department + slot.number);
    StepOk(cat, st, key, q);
    if next.None? {
      var core := NextCore(st1.schedule.Get(q));
      var s := st1.schedule.Set(q, Put(st1.schedule.Get(q), core, CoreSlot(cat)));
      r := RemoveCourseAt(cat, Session(st1.all, s), "BASECASE", Stop);
      return;
    }
    var (c, nid) := next.value;
    var all := SetTaken(st1.all, slot.branch, nid, Some(q));
    all := SetCredit(all, slot.branch, nid, Yes);
    var k := c.department + c.number;
    var s := st1.schedule.Set(q, Put(st1.schedule.Get(q), k, SlotOf(c, slot.branch)));
    r := RemoveCourseAt(cat, Session(all, s), k, After(c.offering, q));
  }

  /**
   * `removeCourse(course_title)`, the first call: recurse at the first
   * quarter holding the key; otherwise set credit on the first record the
   * key names. `None` is the TypeError the source throws when no record
   * matches either.
   */
  method RemoveCourse(cat: Catalogue, st: Session, key: string) returns (r: Option<Session>)
    requires WellFormed(cat) && SessionOk(cat, st)
    ensures r == Remove(cat, st, key)
  {
    var placed := FirstQuarterWith(st.schedule, key);
    if placed.Some? {
      var chain := RemoveCourseAt(cat, st, key, At(placed.value));
      return Some(chain);
    }
    var (department, number) := SplitKey(key);
    match FindRecord(st.all, department, number) {
      case None =>
        r := None;
      case Some((branch, i)) =>
        r := Some(Session(SetCredit(st.all, branch, i, Yes), st.schedule));
    }
  }

  /** The loop `for (_quarter in WorkingSchedule)` of the first call: the first quarter holding the key. */
  method FirstQuarterWith(s: Schedule, key: string) returns (r: Option<Quarter>)
    ensures r == QuarterWith(s, key)
  {
    var quarters := [Fall, Winter, Spring];
    for i := 0 to 3
      invariant forall q :: Order(q) < i ==> !Has(s.Get(q), key)
    {
      assert Order(quarters[i]) == i;
      if Has(s.Get(quarters[i]), key) {
        return Some(quarters[i]);
      }
    }
    return None;
  }

  // ---------------------------------------------------------------------------
  // setBasePlan

  /** The inner reset loop of `setBasePlan` over one branch: `credit = 'NO'`, `quarter_taken = ''`. */
  method ResetBranch(s: seq<Course>) returns (r: seq<Course>)
    ensures r == BasePlans.ResetBranch(s)
  {
    r := s;
    for j := 0 to |s|
      invariant |r| == |s|
      invariant forall k :: 0 <= k < j ==> r[k] == Static(s[k])
      invariant forall k :: j <= k < |s| ==> r[k] == s[k]
    {
      r := r[j := r[j].(credit := No)];
      r := r[j := r[j].(quarterTaken := None)];
    }
    assert forall k :: 0 <= k < |s| ==> r[k] == BasePlans.ResetBranch(s)[k];
  }

  /** The reset loops of `setBasePlan`, over the branches in enumeration order. */
  method ResetCatalogue(cat: Catalogue) returns (r: Catalogue)
    requires forall b :: b in cat.branches <==> b in cat.order
    ensures r == BasePlans.ResetCatalogue(cat)
  {
    r := cat;
    for i := 0 to |cat.order|
      invariant r.order == cat.order && r.branches.Keys == cat.branches.Keys
      invariant forall b :: b in cat.branches ==>
                  r.branches[b] == if b in cat.order[..i] then BasePlans.ResetBranch(cat.branches[b]) else cat.branches[b]
    {
      var b := cat.order[i];
      ResetBranchTwice(cat.branches[b]);
      var reset := ResetBranch(r.branches[b]);
      r := r.(branches := r.branches[b := reset]);
      assert forall c :: c in cat.order[..i + 1] <==> c in cat.order[..i] || c == b;
    }
    assert cat.order[..|cat.order|] == cat.order;
    assert r.branches == BasePlans.ResetCatalogue(cat).branches;
  }

  /** The marking loop of `setBasePlan` over the entries of quarter `q`, fillers skipped. */
  method MarkQuarter(cat: Catalogue, p: Plan, q: Quarter) returns (r: Catalogue)
    requires QuarterMarkable(cat, p)
    ensures r == BasePlans.MarkQuarter(cat, p, q)
  {
    r := cat;
    for k := 0 to |p|
      invariant QuarterMarkable(r, p[k..])
      invariant BasePlans.MarkQuarter(r, p[k..], q) == BasePlans.MarkQuarter(cat, p, q)
    {
      MarkHead(r, p[k..], q);
      assert p[k..][1..] == p[k + 1..];
      var e := p[k];
      if !ContainsCore(e.key) {
        var (department, number) := SplitKey(e.key);
        var id := GetCourseId(r, e.val.branch, department, number);
        CreditThenTaken(r, e.val.branch, id, Yes, Some(q));
        r := SetCredit(r, e.val.branch, id, Yes);
        r := SetTaken(r, e.val.branch, id, Some(q));
      }
    }
  }

  /** The marking loops of `setBasePlan`, over the quarters in enumeration order. */
  method MarkPlan(cat: Catalogue, s: Schedule) returns (r: Catalogue)
    requires TemplateOk(cat, s)
    ensures r == BasePlans.MarkPlan(cat, s)
  {
    var c1 := MarkQuarter(cat, s.fall, Fall);
    MarkableShape(cat, c1, s.winter);
    MarkableShape(cat, c1, s.spring);
    var c2 := MarkQuarter(c1, s.winter, Winter);
    MarkableShape(c1, c2, s.spring);
    r := MarkQuarter(c2, s.spring, Spring);
  }

  /**
   * `setBasePlan(maj)` on values: reset the catalogue, choose the plan (an
   * unknown major keeps `previous`), mark the records the plan names.
   */
  method SetBasePlan(cat: Catalogue, cse: Schedule, wde: Schedule, previous: Schedule, major: string)
    returns (marked: Catalogue, plan: Schedule)
    requires forall b :: b in cat.branches <==> b in cat.order
    requires TemplateOk(cat, cse) && TemplateOk(cat, wde) && TemplateOk(cat, previous)
    ensures (marked, plan) == BasePlans.SetBasePlan(cat, cse, wde, previous, major)
  {
    var reset := ResetCatalogue(cat);
    plan := previous;
    if major == "cse" {
      plan := cse;
    } else if major == "wde" {
      plan := wde;
    }
    MarkableShape(cat, reset, plan.fall);
    MarkableShape(cat, reset, plan.winter);
    MarkableShape(cat, reset, plan.spring);
    marked := MarkPlan(reset, plan);
  }

  // ---------------------------------------------------------------------------
  // The driver's replay

  /**
   * The inner loop of `computeNewSchedule`: the operations of one event,
   * each dispatched to `removeCourse`, after the operations `done` that led
   * from `start` to `cur`. `ok` is false when an operation throws; `st` is
   * then the state the operations before it left.
   */
  method ReplayOps(cat: Catalogue, start: Session, done: seq<CreditEvents.Operation>, cur: Session, ops: seq<CreditEvents.Operation>)
    returns (ok: bool, st: Session)
    requires WellFormed(cat) && SessionOk(cat, start)
    requires Recompute.Replay(cat, start, done) == Some(cur)
    ensures SessionOk(cat, st)
    ensures ok <==> Recompute.Replay(cat, start, done + ops).Some?
    ensures ok ==> Recompute.Replay(cat, start, done + ops) == Some(st)
    ensures !ok ==> Recompute.StoppedAt(cat, start, done + ops, st)
  {
    st := cur;
    Recompute.EmptyPrefix(done, ops);
    var j := 0;
    while j < |ops|
      invariant 0 <= j <= |ops|
      invariant Recompute.Replay(cat, start, done + ops[..j]) == Some(st)
    {
      Recompute.ReplayNext(cat, start, done, ops, j, st);
      var next := RemoveCourse(cat, st, ops[j].key);
      if next.None? {
        Recompute.StoppedInside(cat, start, done, ops, j, st);
        return false, st;
      }
      st := next.value;
      j := j + 1;
    }
    assert ops[..j] == ops;
    ok := true;
  }

  /**
   * The outer loop of `computeNewSchedule` over the events of `ModLog` in
   * order. `ok` is false when an operation throws; `st` is then the state
   * the operations before it left.
   */
  method ReplayLog(cat: Catalogue, start: Session, log: Recompute.ModLog) returns (ok: bool, st: Session)
    requires WellFormed(cat) && SessionOk(cat, start)
    ensures SessionOk(cat, st)
    ensures ok <==> Recompute.Replay(cat, start, Recompute.Flatten(log)).Some?
    ensures ok ==> Recompute.Replay(cat, start, Recompute.Flatten(log)) == Some(st)
    ensures !ok ==> Recompute.StoppedAt(cat, start, Recompute.Flatten(log), st)
  {
    st := start;
    var i := 0;
    while i < |log|
      invariant 0 <= i <= |log|
      invariant Recompute.Replay(cat, start, Recompute.Flatten(log[..i])) == Some(st)
    {
      Recompute.FlattenCut(log, i);
      ok, st := ReplayOps(cat, start, Recompute.Flatten(log[..i]), st, log[i].val);
      if !ok {
        Recompute.ReplayPrefixAborts(cat, start, Recompute.Flatten(log[..i + 1]), Recompute.Flatten(log[i + 1..]));
        Recompute.StoppedAtExtends(cat, start, Recompute.Flatten(log[..i + 1]), Recompute.Flatten(log[i + 1..]), st);
        return;
      }
      i := i + 1;
    }
    assert log[..i] == log;
    ok := true;
  }

  /**
   * `computeNewSchedule()` on values: start from the catalogue and the base
   * plan, replay the log, then run `fixCI`.
   */
  method ComputeNewSchedule(cat: Catalogue, basePlan: Schedule, log: Recompute.ModLog) returns (ok: bool, st: Session)
    requires WellFormed(cat) && ScheduleOk(cat, basePlan)
    ensures SessionOk(cat, st)
    ensures ok <==> Recompute.ComputeNewSchedule(cat, basePlan, log).Some?
    ensures ok ==> Recompute.ComputeNewSchedule(cat, basePlan, log) == Some(st)
    ensures !ok ==> Recompute.StoppedAt(cat, Session(cat, basePlan), Recompute.Flatten(log), st)
  {
    ok, st := ReplayLog(cat, Session(cat, basePlan), log);
    if ok {
      st := FixCI(cat, st);
    }
  }
}
