/**
 * `setBasePlan(maj)` (js/compute_new_schedule.js, lines 724-764): reset
 * every catalogue record to not earned and unplaced, pick the major's
 * template, and mark each course of the template as earned and taken in its
 * quarter.
 */
module BasePlans {
  import opened Wrappers
  import opened Assoc
  import opened Courses
  import opened Schedules

  /** The catalogue with every record's `credit` 'NO' and `quarter_taken` ''. */
  function ResetCatalogue(cat: Catalogue): (r: Catalogue)
    ensures SameShape(cat, r)
    ensures forall b, i :: b in r.branches && 0 <= i < |r.branches[b]| ==>
              r.branches[b][i].credit == No && r.branches[b][i].quarterTaken.None?
  {
    var r := cat.(branches := map b | b in cat.branches :: ResetBranch(cat.branches[b]));
    assert forall b :: b in cat.branches ==> r.branches[b] == ResetBranch(cat.branches[b]);
    r
  }

  function ResetBranch(s: seq<Course>): (r: seq<Course>)
    ensures |r| == |s| && forall i :: 0 <= i < |s| ==> r[i] == Static(s[i])
  {
    seq(|s|, i requires 0 <= i < |s| => Static(s[i]))
  }

  /** Resetting a branch twice is resetting it once (a branch name the enumeration lists twice). */
  lemma ResetBranchTwice(s: seq<Course>)
    ensures ResetBranch(ResetBranch(s)) == ResetBranch(s)
  {
    assert forall i :: 0 <= i < |s| ==> ResetBranch(ResetBranch(s))[i] == ResetBranch(s)[i];
  }

  /** The record a template entry names: its slot's branch and its key split at the first digit. */
  function EntryRecord(cat: Catalogue, e: Entry<Slot>): int
  {
    var (department, number) := SplitKey(e.key);
    GetCourseId(cat, e.val.branch, department, number)
  }

  /** A template entry the marking loop acts on: not a filler. */
  predicate Marks(cat: Catalogue, e: Entry<Slot>, b: string, i: int)
  {
    !ContainsCore(e.key) && e.val.branch == b && EntryRecord(cat, e) == i
  }

  /** Some non-filler entry of `p` names record `i` of branch `b`. */
  predicate MarkedBy(cat: Catalogue, p: Plan, b: string, i: int)
  {
    exists k :: 0 <= k < |p| && Marks(cat, p[k], b, i)
  }

  /**
   * The template data the marking loop needs: every non-filler key, split at
   * its first digit, names a record of its slot's branch (otherwise the
   * source indexes `CourseCatalogue[branch][-1]` and throws).
   */
  predicate QuarterMarkable(cat: Catalogue, p: Plan)
  {
    forall k :: 0 <= k < |p| && !ContainsCore(p[k].key) ==> EntryRecord(cat, p[k]) >= 0
  }

  predicate TemplateOk(cat: Catalogue, s: Schedule)
  {
    QuarterMarkable(cat, s.fall) && QuarterMarkable(cat, s.winter) && QuarterMarkable(cat, s.spring)
  }

  /** The loop body for one template entry of quarter `q`. */
  function MarkEntry(cat: Catalogue, e: Entry<Slot>, q: Quarter): (r: Catalogue)
    requires !ContainsCore(e.key) ==> EntryRecord(cat, e) >= 0
  {
    if ContainsCore(e.key) then cat
    else
      var i := EntryRecord(cat, e);
      UpdateRecord(cat, e.val.branch, i, cat.branches[e.val.branch][i].(credit := Yes, quarterTaken := Some(q)))
  }

  /** The inner loop of the marking pass over the entries of quarter `q`, in order. */
  function MarkQuarter(cat: Catalogue, p: Plan, q: Quarter): (r: Catalogue)
    requires QuarterMarkable(cat, p)
    ensures SameShape(cat, r)
    decreases |p|
  {
    if p == [] then cat
    else
      var c1 := MarkEntry(cat, p[0], q);
      assert SameShape(cat, c1) by {
        if !ContainsCore(p[0].key) {
          var i := EntryRecord(cat, p[0]);
          StatusUpdateKeepsShape(cat, p[0].val.branch, i, cat.branches[p[0].val.branch][i].(credit := Yes, quarterTaken := Some(q)));
        }
      }
      assert QuarterMarkable(c1, p[1..]) by {
        forall k | 0 <= k < |p[1..]| && !ContainsCore(p[1..][k].key) ensures EntryRecord(c1, p[1..][k]) >= 0 {
          var e := p[1..][k];
          assert e == p[k + 1];
          GetCourseIdShape(cat, c1, e.val.branch, SplitKey(e.key).0, SplitKey(e.key).1);
        }
      }
      var r := MarkQuarter(c1, p[1..], q);
      SameShapeTransitive(cat, c1, r);
      r
  }

  /**
   * After the inner loop, exactly the records some non-filler entry of the
   * quarter names are earned and taken in `q`; every other record is as it was.
   */
  lemma {:induction false} MarkQuarterEffect(cat: Catalogue, p: Plan, q: Quarter, b: string, i: int)
    requires QuarterMarkable(cat, p) && b in cat.branches && 0 <= i < |cat.branches[b]|
    ensures var r := MarkQuarter(cat, p, q);
      r.branches[b][i] == (if MarkedBy(cat, p, b, i)
                           then cat.branches[b][i].(credit := Yes, quarterTaken := Some(q))
                           else cat.branches[b][i])
    decreases |p|
  {
    if p != [] {
      var c1 := MarkEntry(cat, p[0], q);
      MarkHead(cat, p, q);
      MarkQuarterEffect(c1, p[1..], q, b, i);
      MarkEntryEffect(cat, p[0], q, b, i);
      MarkedByCons(cat, c1, p, b, i);
    }
  }

  /** The first entry of the inner loop keeps the shape, and the rest of the loop runs on its result. */
  lemma MarkHead(cat: Catalogue, p: Plan, q: Quarter)
    requires QuarterMarkable(cat, p) && p != []
    ensures var c1 := MarkEntry(cat, p[0], q);
      && SameShape(cat, c1) && QuarterMarkable(c1, p[1..])
      && MarkQuarter(cat, p, q) == MarkQuarter(c1, p[1..], q)
  {
    var c1 := MarkEntry(cat, p[0], q);
    assert SameShape(cat, c1) by {
      if !ContainsCore(p[0].key) {
        var j := EntryRecord(cat, p[0]);
        StatusUpdateKeepsShape(cat, p[0].val.branch, j, cat.branches[p[0].val.branch][j].(credit := Yes, quarterTaken := Some(q)));
      }
    }
    MarkableShape(cat, c1, p[1..]);
  }

  /** One entry marks record `i` of branch `b` exactly when it names it. */
  lemma MarkEntryEffect(cat: Catalogue, e: Entry<Slot>, q: Quarter, b: string, i: int)
    requires (!ContainsCore(e.key) ==> EntryRecord(cat, e) >= 0) && b in cat.branches && 0 <= i < |cat.branches[b]|
    ensures MarkEntry(cat, e, q).branches[b][i]
            == if Marks(cat, e, b, i) then cat.branches[b][i].(credit := Yes, quarterTaken := Some(q)) else cat.branches[b][i]
  {
  }

  /** Whether a plan names a record, split at its first entry. */
  lemma MarkedByCons(cat: Catalogue, c1: Catalogue, p: Plan, b: string, i: int)
    requires SameShape(cat, c1) && p != []
    ensures MarkedBy(cat, p, b, i) == (Marks(cat, p[0], b, i) || MarkedBy(c1, p[1..], b, i))
  {
    forall k | 0 <= k < |p[1..]| ensures Marks(c1, p[1..][k], b, i) == Marks(cat, p[k + 1], b, i) {
      var e := p[1..][k];
      assert e == p[k + 1];
      GetCourseIdShape(cat, c1, e.val.branch, SplitKey(e.key).0, SplitKey(e.key).1);
    }
    if MarkedBy(cat, p, b, i) {
      var k :| 0 <= k < |p| && Marks(cat, p[k], b, i);
      if k > 0 {
        assert Marks(c1, p[1..][k - 1], b, i);
      }
    }
    if MarkedBy(c1, p[1..], b, i) {
      var k :| 0 <= k < |p[1..]| && Marks(c1, p[1..][k], b, i);
      assert Marks(cat, p[k + 1], b, i);
    }
  }

  /** The marking pass: the quarters in enumeration order. */
  function MarkPlan(cat: Catalogue, s: Schedule): (r: Catalogue)
    requires TemplateOk(cat, s)
    ensures SameShape(cat, r)
  {
    var c2 := MarkFallWinter(cat, s);
    var c3 := MarkQuarter(c2, s.spring, Spring);
    SameShapeTransitive(cat, c2, c3);
    c3
  }

  /** The first two quarters of the marking pass. */
  function MarkFallWinter(cat: Catalogue, s: Schedule): (r: Catalogue)
    requires TemplateOk(cat, s)
    ensures SameShape(cat, r) && QuarterMarkable(r, s.spring)
  {
    var c1 := MarkQuarter(cat, s.fall, Fall);
    MarkableShape(cat, c1, s.winter);
    MarkableShape(cat, c1, s.spring);
    var c2 := MarkQuarter(c1, s.winter, Winter);
    MarkableShape(c1, c2, s.spring);
    SameShapeTransitive(cat, c1, c2);
    c2
  }

  lemma MarkableShape(a: Catalogue, b: Catalogue, p: Plan)
    requires SameShape(a, b) && QuarterMarkable(a, p)
    ensures QuarterMarkable(b, p)
  {
    forall k | 0 <= k < |p| && !ContainsCore(p[k].key) ensures EntryRecord(b, p[k]) >= 0 {
      GetCourseIdShape(a, b, p[k].val.branch, SplitKey(p[k].key).0, SplitKey(p[k].key).1);
    }
  }

  /** Which records the template names does not depend on credit status. */
  lemma LastMarkedShape(a: Catalogue, b: Catalogue, s: Schedule, br: string, i: int)
    requires SameShape(a, b)
    ensures forall q :: MarkedIn(a, s, q, br, i) == MarkedIn(b, s, q, br, i)
    ensures LastMarked(a, s, br, i) == LastMarked(b, s, br, i)
  {
    forall q, k | 0 <= k < |s.Get(q)| ensures Marks(a, s.Get(q)[k], br, i) == Marks(b, s.Get(q)[k], br, i) {
      var e := s.Get(q)[k];
      GetCourseIdShape(a, b, e.val.branch, SplitKey(e.key).0, SplitKey(e.key).1);
    }
    forall q ensures MarkedIn(a, s, q, br, i) == MarkedIn(b, s, q, br, i) {
      var p := s.Get(q);
      assert forall k :: 0 <= k < |p| ==> Marks(a, p[k], br, i) == Marks(b, p[k], br, i);
    }
  }

  /** Some non-filler entry of quarter `q` of the template names record `i` of branch `b`. */
  predicate MarkedIn(cat: Catalogue, s: Schedule, q: Quarter, b: string, i: int)
  {
    MarkedBy(cat, s.Get(q), b, i)
  }

  /**
   * `setBasePlan(maj)`: the major's template, or the previous base plan for
   * a major the switch does not know, and the catalogue reset and marked
   * from it.
   */
  function SetBasePlan(cat: Catalogue, cse: Schedule, wde: Schedule, previous: Schedule, major: string): (r: (Catalogue, Schedule))
    requires TemplateOk(cat, cse) && TemplateOk(cat, wde) && TemplateOk(cat, previous)
    ensures r.1 == if major == "cse" then cse else if major == "wde" then wde else previous
    ensures SameShape(cat, r.0)
  {
    var plan := if major == "cse" then cse else if major == "wde" then wde else previous;
    var reset := ResetCatalogue(cat);
    MarkableShape(cat, reset, plan.fall);
    MarkableShape(cat, reset, plan.winter);
    MarkableShape(cat, reset, plan.spring);
    var marked := MarkPlan(reset, plan);
    SameShapeTransitive(cat, reset, marked);
    (marked, plan)
  }

  /** The last quarter, in enumeration order, whose entries name the record. */
  function LastMarked(cat: Catalogue, s: Schedule, b: string, i: int): Option<Quarter>
  {
    if MarkedIn(cat, s, Spring, b, i) then Some(Spring)
    else if MarkedIn(cat, s, Winter, b, i) then Some(Winter)
    else if MarkedIn(cat, s, Fall, b, i) then Some(Fall)
    else None
  }

  /** One quarter of the marking pass, on any status copy of the catalogue. */
  lemma MarkStep(cat: Catalogue, a: Catalogue, s: Schedule, q: Quarter, b: string, i: int)
    requires SameShape(cat, a) && QuarterMarkable(a, s.Get(q)) && b in a.branches && 0 <= i < |a.branches[b]|
    ensures MarkQuarter(a, s.Get(q), q).branches[b][i]
            == if MarkedIn(cat, s, q, b, i) then a.branches[b][i].(credit := Yes, quarterTaken := Some(q)) else a.branches[b][i]
  {
    MarkQuarterEffect(a, s.Get(q), q, b, i);
    LastMarkedShape(cat, a, s, b, i);
  }

  /** After the marking pass, a record some entry names is earned and taken in the last quarter naming it. */
  lemma MarkPlanEffect(cat: Catalogue, s: Schedule, b: string, i: int)
    requires TemplateOk(cat, s) && b in cat.branches && 0 <= i < |cat.branches[b]|
    ensures var c := MarkPlan(cat, s).branches[b][i];
      c == match LastMarked(cat, s, b, i)
           case None => cat.branches[b][i]
           case Some(q) => cat.branches[b][i].(credit := Yes, quarterTaken := Some(q))
  {
    var c2 := MarkFallWinter(cat, s);
    MarkFallWinterEffect(cat, s, b, i);
    MarkStep(cat, c2, s, Spring, b, i);
  }

  /** After fall and winter, a record is earned and taken in the later of the two quarters naming it. */
  lemma MarkFallWinterEffect(cat: Catalogue, s: Schedule, b: string, i: int)
    requires TemplateOk(cat, s) && b in cat.branches && 0 <= i < |cat.branches[b]|
    ensures MarkFallWinter(cat, s).branches[b][i]
            == if MarkedIn(cat, s, Winter, b, i) then cat.branches[b][i].(credit := Yes, quarterTaken := Some(Winter))
               else if MarkedIn(cat, s, Fall, b, i) then cat.branches[b][i].(credit := Yes, quarterTaken := Some(Fall))
               else cat.branches[b][i]
  {
    var c1 := MarkQuarter(cat, s.fall, Fall);
    MarkableShape(cat, c1, s.winter);
    MarkStep(cat, cat, s, Fall, b, i);
    MarkStep(cat, c1, s, Winter, b, i);
  }

  /**
   * After `setBasePlan`, a record is earned exactly when some non-filler
   * template entry names it, and its `quarter_taken` is the last quarter, in
   * enumeration order, whose entries name it; a record no entry names is
   * not earned and unplaced.
   */
  lemma SetBasePlanMarks(cat: Catalogue, cse: Schedule, wde: Schedule, previous: Schedule, major: string, b: string, i: int)
    requires TemplateOk(cat, cse) && TemplateOk(cat, wde) && TemplateOk(cat, previous)
    requires b in cat.branches && 0 <= i < |cat.branches[b]|
    ensures var (marked, plan) := SetBasePlan(cat, cse, wde, previous, major);
      var c := marked.branches[b][i];
      && Static(c) == Static(cat.branches[b][i])
      && (c.credit == Yes <==> LastMarked(cat, plan, b, i).Some?)
      && c.quarterTaken == LastMarked(cat, plan, b, i)
  {
    var plan := if major == "cse" then cse else if major == "wde" then wde else previous;
    var reset := ResetCatalogue(cat);
    MarkableShape(cat, reset, plan.fall);
    MarkableShape(cat, reset, plan.winter);
    MarkableShape(cat, reset, plan.spring);
    LastMarkedShape(cat, reset, plan, b, i);
    MarkPlanEffect(reset, plan, b, i);
  }
}
