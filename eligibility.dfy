/**
 * Eligibility of a course for a quarter and the search for a branch
 * successor (js/compute_new_schedule.js, lines 64-205).
 *
 * Every predicate here receives its course record from `getCourse`, that
 * is, from `window.CourseCatalogue`; the engine writes its changes to
 * `window.AllCourses`, so these predicates see the status the base plan set.
 */
module Eligibility {
  import opened Wrappers
  import opened Courses

  /**
   * `takenBeforeOrDuringThisQuarter(course, quarter)`: the course is earned
   * and either placed in no quarter or placed no later than `q`.
   */
  function TakenBeforeOrDuringThisQuarter(c: Course, q: Quarter): (r: bool)
    ensures r <==> c.credit == Yes && (c.quarterTaken.None? || Order(c.quarterTaken.value) <= Order(q))
  {
    if c.credit.No? then false
    else if c.quarterTaken.None? && c.credit.Yes? then true
    else if q.Spring? then true
    else if q.Fall? && c.quarterTaken == Some(Fall) then true
    else if q.Winter? && c.quarterTaken != Some(Spring) then true
    else false
  }

  /** `offeredThisQuarter(course, quarter)`, over the course's `offering` array. */
  function OfferedThisQuarter(offering: seq<Quarter>, q: Quarter): (r: bool)
    ensures r <==> q in offering
  {
    if offering == [] then false
    else if q == offering[0] then true
    else OfferedThisQuarter(offering[1..], q)
  }

  /**
   * When a prerequisite counts as completed for a course in quarter `q`:
   * it is earned, and it is placed in no quarter, in fall, or in winter
   * with `q` spring.
   */
  predicate PrereqCounts(p: Course, q: Quarter)
  {
    p.credit == Yes
    && (p.quarterTaken.None? || p.quarterTaken == Some(Fall) || (p.quarterTaken == Some(Winter) && q == Spring))
  }

  predicate AllResolve(cat: Catalogue, prereqs: seq<CourseRef>)
  {
    forall k :: 0 <= k < |prereqs| ==> Resolves(cat, prereqs[k])
  }

  /**
   * `prereqsCompleted(course, quarter)` over the course's prerequisites.
   * The test for a prerequisite taken in fall compares the quarter with the
   * string 'fall quarter', which no quarter name equals, so that case never
   * fails.
   */
  function PrereqsCompleted(cat: Catalogue, prereqs: seq<CourseRef>, q: Quarter): (r: bool)
    requires AllResolve(cat, prereqs)
    ensures r <==> forall k :: 0 <= k < |prereqs| ==> PrereqCounts(Resolve(cat, prereqs[k]), q)
  {
    if prereqs == [] then true
    else
      assert forall k :: 1 <= k < |prereqs| ==> prereqs[k] == prereqs[1..][k - 1];
      var p := Resolve(cat, prereqs[0]);
      if p.credit.No? then false
      else
        match p.quarterTaken
        case Some(Spring) => false
        case Some(Winter) => if q != Spring then false else PrereqsCompleted(cat, prereqs[1..], q)
        case Some(Fall) =>
          assert QuarterName(q)[4] != ' ';
          if QuarterName(q) == "fall quarter" then false else PrereqsCompleted(cat, prereqs[1..], q)
        case None => PrereqsCompleted(cat, prereqs[1..], q)
  }

  /** One iteration of the loop over `offerings` in `nextOffering` from fall. */
  function AfterFallStep(next: Option<Quarter>, o: Quarter): Option<Quarter>
  {
    var n := if o == Winter then Some(Winter) else next;
    if o == Spring && n != Some(Winter) then Some(Spring) else n
  }

  /** The loop of `nextOffering` from fall, with `next_offering` starting at `next`. */
  function AfterFall(offerings: seq<Quarter>, next: Option<Quarter>): Option<Quarter>
  {
    if offerings == [] then next else AfterFall(offerings[1..], AfterFallStep(next, offerings[0]))
  }

  /** The loop ends with winter if winter is offered, else spring if spring is, else where it started. */
  lemma {:induction false} AfterFallResult(offerings: seq<Quarter>, next: Option<Quarter>)
    requires next != Some(Fall)
    ensures AfterFall(offerings, next)
         == if Winter in offerings || next == Some(Winter) then Some(Winter)
            else if Spring in offerings || next == Some(Spring) then Some(Spring)
            else next
  {
    if offerings != [] {
      AfterFallResult(offerings[1..], AfterFallStep(next, offerings[0]));
      assert offerings == [offerings[0]] + offerings[1..];
    }
  }

  /**
   * `nextOffering(offerings, quarter)`: the next quarter after `q` in which
   * the course is offered (`None` is the source's -1).
   */
  function NextOffering(offerings: seq<Quarter>, q: Quarter): (r: Option<Quarter>)
    ensures q == Spring ==> r.None?
    ensures q == Fall ==> r == if Winter in offerings then Some(Winter) else if Spring in offerings then Some(Spring) else None
    ensures q == Winter ==> r == if Spring in offerings then Some(Spring) else None
    ensures r.Some? ==> r.value in offerings && Order(q) < Order(r.value)
  {
    match q
    case Spring => None
    case Fall => AfterFallResult(offerings, None); AfterFall(offerings, None)
    case Winter => if OfferedThisQuarter(offerings, Spring) then Some(Spring) else None
  }

  /** The three tests of the search loop, all passed. */
  predicate Eligible(cat: Catalogue, c: Course, q: Quarter)
    requires AllResolve(cat, c.prerequisites)
  {
    !TakenBeforeOrDuringThisQuarter(c, q) && OfferedThisQuarter(c.offering, q) && PrereqsCompleted(cat, c.prerequisites, q)
  }

  /** Every record of the branch has resolving prerequisites. */
  ghost predicate BranchResolves(cat: Catalogue, branch: string)
    requires branch in cat.branches
  {
    forall i, k :: 0 <= i < |cat.branches[branch]| && 0 <= k < |cat.branches[branch][i].prerequisites|
      ==> Resolves(cat, cat.branches[branch][i].prerequisites[k])
  }

  /**
   * Where the successor search starts: after the position of the current
   * course's parent in the branch if it has one, else after the current course.
   */
  function SearchStart(cat: Catalogue, branch: string, id: nat): (r: int)
    requires branch in cat.branches && id < |cat.branches[branch]|
    ensures r >= 0
  {
    match ParentCourseInSameBranch(cat, cat.branches[branch][id].prerequisites, branch)
    case None => id + 1
    case Some(p) => GetCourseId(cat, p.branch, p.department, p.number) + 1
  }

  /** The search start when the first same-branch prerequisite names a record of the branch. */
  lemma SearchStartAtParent(cat: Catalogue, branch: string, id: nat, k: nat)
    requires branch in cat.branches && id < |cat.branches[branch]|
    requires forall i :: 0 <= i < |cat.branches[branch]| ==> cat.branches[branch][i].branch == branch
    requires FirstInBranch(cat.branches[branch][id].prerequisites, branch) == Some(k)
    requires var pr := cat.branches[branch][id].prerequisites[k]; GetCourseId(cat, branch, pr.department, pr.number) >= 0
    ensures var pr := cat.branches[branch][id].prerequisites[k];
            SearchStart(cat, branch, id) == GetCourseId(cat, branch, pr.department, pr.number) + 1
  {
    var pr := cat.branches[branch][id].prerequisites[k];
    var i := GetCourseId(cat, branch, pr.department, pr.number);
    var p := cat.branches[branch][i];
    assert ParentCourseInSameBranch(cat, cat.branches[branch][id].prerequisites, branch) == Some(p);
    assert p.branch == branch && p.department == pr.department && p.number == pr.number;
  }

  /** The search start when there is no same-branch prerequisite, or the first one names nothing. */
  lemma SearchStartAtSelf(cat: Catalogue, branch: string, id: nat)
    requires branch in cat.branches && id < |cat.branches[branch]|
    requires var prs := cat.branches[branch][id].prerequisites; var f := FirstInBranch(prs, branch);
             f.Some? ==> GetCourseId(cat, branch, prs[f.value].department, prs[f.value].number) < 0
    ensures SearchStart(cat, branch, id) == id + 1
  {
    assert ParentCourseInSameBranch(cat, cat.branches[branch][id].prerequisites, branch) == None;
  }

  /**
   * In a branch whose records carry their own branch name, the scan starts
   * one past the parent's position (the first record named by the first
   * same-branch prerequisite), or one past the course itself when it has no
   * such prerequisite or that prerequisite names nothing.
   */
  lemma {:induction false} SearchStartAfterParent(cat: Catalogue, branch: string, id: nat)
    requires branch in cat.branches && id < |cat.branches[branch]|
    requires forall i :: 0 <= i < |cat.branches[branch]| ==> cat.branches[branch][i].branch == branch
    ensures var s := cat.branches[branch];
            var prs := s[id].prerequisites;
            var f := FirstInBranch(prs, branch);
            var r := SearchStart(cat, branch, id);
            if f.Some? && Resolves(cat, prs[f.value]) then
              1 <= r <= |s| && Matches(s[r - 1], prs[f.value].department, prs[f.value].number)
              && forall j :: 0 <= j < r - 1 ==> !Matches(s[j], prs[f.value].department, prs[f.value].number)
            else r == id + 1
  {
    var prs := cat.branches[branch][id].prerequisites;
    var f := FirstInBranch(prs, branch);
    if f.Some? && GetCourseId(cat, branch, prs[f.value].department, prs[f.value].number) >= 0 {
      SearchStartAtParent(cat, branch, id, f.value);
    } else {
      SearchStartAtSelf(cat, branch, id);
    }
  }

  /** The scan of the search loop from position `i` to the end of the branch. */
  function ScanFrom(cat: Catalogue, branch: string, i: nat, q: Quarter): (r: Option<(Course, nat)>)
    requires branch in cat.branches && i < |cat.branches[branch]| && BranchResolves(cat, branch)
    ensures r.Some? ==> var s := cat.branches[branch];
      i <= r.value.1 < |s| && r.value.0 == s[r.value.1] && Eligible(cat, r.value.0, q)
      && forall j :: i <= j < r.value.1 ==> !Eligible(cat, s[j], q)
    ensures r.None? ==> forall j :: i <= j < |cat.branches[branch]| ==> !Eligible(cat, cat.branches[branch][j], q)
    decreases |cat.branches[branch]| - i
  {
    var s := cat.branches[branch];
    assert AllResolve(cat, s[i].prerequisites);
    if Eligible(cat, s[i], q) then Some((s[i], i))
    else if i == |s| - 1 then None
    else ScanFrom(cat, branch, i + 1, q)
  }

  /**
   * `nextCourseAfter(course_data, id, quarter)`: the first course from the
   * search start on that the student has not taken by `q`, that is offered
   * in `q` and whose prerequisites are completed, with its position.
   * A start past the end of the branch finds nothing.
   */
  function NextCourseAfter(cat: Catalogue, branch: string, id: nat, q: Quarter): (r: Option<(Course, nat)>)
    requires branch in cat.branches && id < |cat.branches[branch]| && BranchResolves(cat, branch)
    ensures r.Some? ==> var s := cat.branches[branch];
      SearchStart(cat, branch, id) <= r.value.1 < |s| && r.value.0 == s[r.value.1] && Eligible(cat, r.value.0, q)
      && forall j :: SearchStart(cat, branch, id) <= j < r.value.1 ==> !Eligible(cat, s[j], q)
    ensures r.None? <==> forall j :: SearchStart(cat, branch, id) <= j < |cat.branches[branch]| ==> !Eligible(cat, cat.branches[branch][j], q)
  {
    var start := SearchStart(cat, branch, id);
    if start >= |cat.branches[branch]| then None else ScanFrom(cat, branch, start, q)
  }

  /** What the search loop of the source does: it reads the record at the start position unchecked. */
  datatype Search = Crash | NotFound | FoundAt(course: Course, id: nat)

  /**
   * `nextCourseAfter` as written: when the search start is past the end of
   * the branch, `getCourse` yields `undefined` and the next line's field
   * access throws a TypeError.
   */
  function NextCourseAfterAsWritten(cat: Catalogue, branch: string, id: nat, q: Quarter): (r: Search)
    requires branch in cat.branches && id < |cat.branches[branch]| && BranchResolves(cat, branch)
    ensures r.Crash? <==> SearchStart(cat, branch, id) >= |cat.branches[branch]|
    ensures r.NotFound? ==> NextCourseAfter(cat, branch, id, q).None?
    ensures r.FoundAt? ==> NextCourseAfter(cat, branch, id, q) == Some((r.course, r.id))
  {
    var start := SearchStart(cat, branch, id);
    if start >= |cat.branches[branch]| then Crash
    else
      match ScanFrom(cat, branch, start, q)
      case None => NotFound
      case Some((c, j)) => FoundAt(c, j)
  }

  /**
   * Removing the last course of a branch, when that course has no
   * prerequisite in the branch, makes the search as written throw, where a
   * filler slot is meant to be taken instead.
   */
  lemma LastCourseOfBranchCrashes()
    ensures var c := Course("COEN", "12", "coen_courses", [Winter], "engineering", 4, [], Yes, Some(Winter));
            var cat := Catalogue(["coen_courses"], map["coen_courses" := [c]]);
            NextCourseAfterAsWritten(cat, "coen_courses", 0, Winter) == Crash
            && NextCourseAfter(cat, "coen_courses", 0, Winter) == None
  {
    var c := Course("COEN", "12", "coen_courses", [Winter], "engineering", 4, [], Yes, Some(Winter));
    var cat := Catalogue(["coen_courses"], map["coen_courses" := [c]]);
    assert SearchStart(cat, "coen_courses", 0) == 1;
  }
}
