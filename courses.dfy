/**
 * The course catalogue and its lookups (js/compute_new_schedule.js,
 * "COURSE INFORMATION FUNCTIONS").
 *
 * `window.CourseCatalogue` and `window.AllCourses` are both values of type
 * `Catalogue`: a mapping from branch name to the ordered array of course
 * records of that branch, together with the order in which `for (branch in …)`
 * enumerates the branch names.
 */
module Courses {
  import opened Wrappers
  import opened Numerals

  datatype Quarter = Fall | Winter | Spring

  /** The property name of a quarter in a schedule object. */
  function QuarterName(q: Quarter): string
  {
    match q
    case Fall => "fall_quarter"
    case Winter => "winter_quarter"
    case Spring => "spring_quarter"
  }

  /** Position of a quarter in the academic year: fall < winter < spring. */
  function Order(q: Quarter): (n: nat)
    ensures n <= 2
    ensures n == 2 <==> q == Spring
  {
    match q
    case Fall => 0
    case Winter => 1
    case Spring => 2
  }

  /** The `credit` field, 'YES' or 'NO'. */
  datatype Credit = Yes | No

  /** A prerequisite reference `[branch, department, course_number]`. */
  datatype CourseRef = CourseRef(branch: string, department: string, number: string)

  /**
   * A catalogue record. `quarterTaken` is `quarter_taken`: `None` is ''.
   * `units` is the number `parseInt` reads from the record's units string.
   */
  datatype Course = Course(
    department: string,
    number: string,
    branch: string,
    offering: seq<Quarter>,
    category: string,
    units: nat,
    prerequisites: seq<CourseRef>,
    credit: Credit,
    quarterTaken: Option<Quarter>)

  /** The fields of a course that a schedule slot carries. */
  datatype Slot = Slot(
    department: string,
    number: string,
    branch: string,
    offering: seq<Quarter>,
    category: string,
    units: nat,
    prerequisites: seq<CourseRef>)

  /** The slot object the source builds from a course record, with the given `branch` field. */
  function SlotOf(c: Course, branch: string): (s: Slot)
    ensures s.department == c.department && s.number == c.number && s.units == c.units
    ensures s.branch == branch && s.offering == c.offering
  {
    Slot(c.department, c.number, branch, c.offering, c.category, c.units, c.prerequisites)
  }

  datatype Catalogue = Catalogue(order: seq<string>, branches: map<string, seq<Course>>)

  predicate Matches(c: Course, department: string, number: string)
  {
    c.department == department && c.number == number
  }

  /** The first index of a record with this department and number, or -1. */
  function FirstMatch(s: seq<Course>, department: string, number: string): (r: int)
    ensures -1 <= r < |s|
    ensures r >= 0 ==> Matches(s[r], department, number)
    ensures forall i :: 0 <= i < |s| && (r == -1 || i < r) ==> !Matches(s[i], department, number)
  {
    if s == [] then -1
    else if Matches(s[0], department, number) then 0
    else
      var r := FirstMatch(s[1..], department, number);
      assert forall i :: 1 <= i < |s| ==> s[i] == s[1..][i - 1];
      if r == -1 then -1 else r + 1
  }

  /** `getCourse(branch, id)`: `CourseCatalogue[branch][id]`, `undefined` outside the array. */
  function GetCourse(cat: Catalogue, branch: string, id: int): (r: Option<Course>)
    requires branch in cat.branches
    ensures r.Some? <==> 0 <= id < |cat.branches[branch]|
    ensures r.Some? ==> r.value == cat.branches[branch][id]
  {
    if 0 <= id < |cat.branches[branch]| then Some(cat.branches[branch][id]) else None
  }

  /**
   * `getCourseId(branch, department, course_number)`: the index of the first
   * record of the branch with that department and number, or -1; a branch the
   * catalogue does not have yields -1, as `for … in undefined` runs no iteration.
   */
  function GetCourseId(cat: Catalogue, branch: string, department: string, number: string): (r: int)
    ensures r >= 0 ==> branch in cat.branches && r < |cat.branches[branch]| && Matches(cat.branches[branch][r], department, number)
    ensures r >= 0 ==> forall i :: 0 <= i < r ==> !Matches(cat.branches[branch][i], department, number)
    ensures r == -1 <==> branch !in cat.branches || forall i :: 0 <= i < |cat.branches[branch]| ==> !Matches(cat.branches[branch][i], department, number)
    ensures r >= -1
  {
    if branch in cat.branches then FirstMatch(cat.branches[branch], department, number) else -1
  }

  /** A reference resolves when its branch holds a course with its department and number. */
  predicate Resolves(cat: Catalogue, p: CourseRef)
  {
    GetCourseId(cat, p.branch, p.department, p.number) >= 0
  }

  /** The record a resolving reference denotes: `getCourse(b, getCourseId(b, d, n))`. */
  function Resolve(cat: Catalogue, p: CourseRef): (c: Course)
    requires Resolves(cat, p)
    ensures Matches(c, p.department, p.number)
  {
    cat.branches[p.branch][GetCourseId(cat, p.branch, p.department, p.number)]
  }

  /**
   * `parentCourseInSameBranch(current_course, branch)`: the first prerequisite
   * that lies in `branch`, looked up in the catalogue. `None` is the source's
   * `null` (no such prerequisite) and also its `undefined` (that prerequisite
   * does not resolve), which the caller's `== null` test treats alike.
   */
  function ParentCourseInSameBranch(cat: Catalogue, prereqs: seq<CourseRef>, branch: string): (r: Option<Course>)
    requires branch in cat.branches
    ensures (forall k :: 0 <= k < |prereqs| ==> prereqs[k].branch != branch) ==> r.None?
    ensures r.Some? ==> (exists k :: 0 <= k < |prereqs| && prereqs[k].branch == branch
                           && (forall j :: 0 <= j < k ==> prereqs[j].branch != branch)
                           && Resolves(cat, prereqs[k]) && r.value == Resolve(cat, prereqs[k]))
    ensures (forall k :: 0 <= k < |prereqs| && prereqs[k].branch == branch ==> Resolves(cat, prereqs[k]))
      ==> (r.Some? <==> exists k :: 0 <= k < |prereqs| && prereqs[k].branch == branch)
  {
    match FirstInBranch(prereqs, branch)
    case None => None
    case Some(k) =>
      GetCourse(cat, branch, GetCourseId(cat, branch, prereqs[k].department, prereqs[k].number))
  }

  /** The position of the first prerequisite that lies in `branch`: the loop of `parentCourseInSameBranch`. */
  function FirstInBranch(prereqs: seq<CourseRef>, branch: string): (r: Option<nat>)
    ensures r.Some? ==> r.value < |prereqs| && prereqs[r.value].branch == branch
                        && forall j :: 0 <= j < r.value ==> prereqs[j].branch != branch
    ensures r.None? <==> forall k :: 0 <= k < |prereqs| ==> prereqs[k].branch != branch
  {
    if prereqs == [] then None
    else if prereqs[0].branch == branch then Some(0)
    else
      var r := FirstInBranch(prereqs[1..], branch);
      assert forall k :: 1 <= k < |prereqs| ==> prereqs[k] == prereqs[1..][k - 1];
      if r.Some? then Some(r.value + 1) else None
  }

  /**
   * The index at which a course key's number part starts: the first digit
   * at index 1 or later, or the key's length (the loop `for (start = 1; …)`).
   */
  function FirstDigitFrom(key: string, i: nat): (r: nat)
    requires 1 <= i <= |key|
    ensures i <= r <= |key|
    ensures r < |key| ==> IsDigit(key[r])
    ensures forall j :: i <= j < r ==> !IsDigit(key[j])
    decreases |key| - i
  {
    if i == |key| || IsDigit(key[i]) then i else FirstDigitFrom(key, i + 1)
  }

  /**
   * Splitting a course key such as "COEN10" into department "COEN" and
   * number "10": the department is everything before the first digit found
   * from index 1 on, so the department is never empty for a non-empty key.
   */
  function SplitKey(key: string): (r: (string, string))
    ensures r.0 + r.1 == key
    ensures |key| > 0 ==> |r.0| >= 1
    ensures forall j :: 1 <= j < |r.0| ==> !IsDigit(r.0[j])
    ensures r.1 == [] || IsDigit(r.1[0])
  {
    if |key| == 0 then ("", "")
    else
      var start := FirstDigitFrom(key, 1);
      assert key[..start] + key[start..] == key;
      (key[..start], key[start..])
  }

  /**
   * The scan `for (branch in AllCourses) for (course in AllCourses[branch])`
   * for the first record with this department and number, over the branch
   * names `names[i..]`.
   */
  function FindRecordFrom(all: Catalogue, names: seq<string>, department: string, number: string): (r: Option<(string, nat)>)
    ensures r.Some? ==> (r.value.0 in names && r.value.0 in all.branches
                         && r.value.1 == GetCourseId(all, r.value.0, department, number))
    ensures r.Some? ==> (exists k :: 0 <= k < |names| && names[k] == r.value.0
                           && forall j :: 0 <= j < k ==> GetCourseId(all, names[j], department, number) == -1)
    ensures r.None? <==> forall k :: 0 <= k < |names| ==> GetCourseId(all, names[k], department, number) == -1
  {
    match FirstNaming(all, names, department, number)
    case None => None
    case Some(k) => Some((names[k], GetCourseId(all, names[k], department, number) as nat))
  }

  /** The position in `names` of the first branch holding a record with this department and number. */
  function FirstNaming(all: Catalogue, names: seq<string>, department: string, number: string): (r: Option<nat>)
    ensures r.Some? ==> (r.value < |names| && GetCourseId(all, names[r.value], department, number) >= 0
                         && forall j :: 0 <= j < r.value ==> GetCourseId(all, names[j], department, number) == -1)
    ensures r.None? <==> forall k :: 0 <= k < |names| ==> GetCourseId(all, names[k], department, number) == -1
  {
    if names == [] then None
    else if GetCourseId(all, names[0], department, number) >= 0 then Some(0)
    else
      var r := FirstNaming(all, names[1..], department, number);
      assert forall k :: 1 <= k < |names| ==> names[k] == names[1..][k - 1];
      match r
      case None => None
      case Some(k) => Some(k + 1)
  }

  /** The first record, in enumeration order, with this department and number. */
  function FindRecord(all: Catalogue, department: string, number: string): Option<(string, nat)>
  {
    FindRecordFrom(all, all.order, department, number)
  }

  /**
   * `getCourseLocFromTitle(course_title)`: the branch of the first record,
   * in enumeration order, whose department and number are the key's two
   * parts, with those parts; `None` is the `undefined` the source returns
   * when no record matches.
   */
  function GetCourseLocFromTitle(all: Catalogue, title: string): (r: Option<CourseRef>)
    ensures r.Some? ==> r.value.department + r.value.number == title
    ensures r.Some? ==> GetCourseId(all, r.value.branch, r.value.department, r.value.number) >= 0
    ensures r.Some? ==> (r.value.department, r.value.number) == SplitKey(title)
                        && FindRecord(all, r.value.department, r.value.number).Some?
                        && FindRecord(all, r.value.department, r.value.number).value.0 == r.value.branch
    ensures r.None? <==> forall k :: 0 <= k < |all.order| ==> GetCourseId(all, all.order[k], SplitKey(title).0, SplitKey(title).1) == -1
  {
    var (department, number) := SplitKey(title);
    match FindRecord(all, department, number)
    case None => None
    case Some((branch, _)) => Some(CourseRef(branch, department, number))
  }

  /** `AllCourses[branch][id] = c`. */
  function UpdateRecord(cat: Catalogue, branch: string, id: nat, c: Course): (r: Catalogue)
    requires branch in cat.branches && id < |cat.branches[branch]|
    ensures r.order == cat.order && r.branches.Keys == cat.branches.Keys
    ensures |r.branches[branch]| == |cat.branches[branch]| && r.branches[branch][id] == c
    ensures forall b, i :: (b in cat.branches && 0 <= i < |cat.branches[b]| && (b != branch || i != id)
                            ==> |r.branches[b]| == |cat.branches[b]| && r.branches[b][i] == cat.branches[b][i])
  {
    cat.(branches := cat.branches[branch := cat.branches[branch][id := c]])
  }

  /** `AllCourses[branch][id]['quarter_taken'] = qt`. */
  function SetTaken(cat: Catalogue, branch: string, id: nat, qt: Option<Quarter>): Catalogue
    requires branch in cat.branches && id < |cat.branches[branch]|
  {
    UpdateRecord(cat, branch, id, cat.branches[branch][id].(quarterTaken := qt))
  }

  /** `AllCourses[branch][id]['credit'] = credit`. */
  function SetCredit(cat: Catalogue, branch: string, id: nat, credit: Credit): Catalogue
    requires branch in cat.branches && id < |cat.branches[branch]|
  {
    UpdateRecord(cat, branch, id, cat.branches[branch][id].(credit := credit))
  }

  /** Setting credit, then the quarter, is one update of the record with both. */
  lemma CreditThenTaken(cat: Catalogue, branch: string, id: nat, credit: Credit, qt: Option<Quarter>)
    requires branch in cat.branches && id < |cat.branches[branch]|
    ensures SetTaken(SetCredit(cat, branch, id, credit), branch, id, qt)
            == UpdateRecord(cat, branch, id, cat.branches[branch][id].(credit := credit, quarterTaken := qt))
  {
    var s := cat.branches[branch];
    var c := s[id].(credit := credit);
    assert s[id := c][id := c.(quarterTaken := qt)] == s[id := s[id].(credit := credit, quarterTaken := qt)];
  }

  /** A record with its credit status cleared: everything the lookups look at. */
  function Static(c: Course): Course
  {
    c.(credit := No, quarterTaken := None)
  }

  /**
   * Two catalogues with the same branches, the same records and possibly
   * different credit status: `AllCourses` against `CourseCatalogue`.
   */
  predicate SameShape(a: Catalogue, b: Catalogue)
  {
    && a.order == b.order
    && a.branches.Keys == b.branches.Keys
    && (forall x :: x in a.branches ==> |a.branches[x]| == |b.branches[x]|)
    && (forall x, i :: x in a.branches && 0 <= i < |a.branches[x]| ==> Static(a.branches[x][i]) == Static(b.branches[x][i]))
  }

  lemma SameShapeSymmetric(a: Catalogue, b: Catalogue)
    requires SameShape(a, b)
    ensures SameShape(b, a)
  {
  }

  lemma SameShapeTransitive(a: Catalogue, b: Catalogue, c: Catalogue)
    requires SameShape(a, b) && SameShape(b, c)
    ensures SameShape(a, c)
  {
  }

  /** Changing a record's credit status keeps the catalogue's shape. */
  lemma StatusUpdateKeepsShape(cat: Catalogue, branch: string, id: nat, c: Course)
    requires branch in cat.branches && id < |cat.branches[branch]|
    requires Static(c) == Static(cat.branches[branch][id])
    ensures SameShape(cat, UpdateRecord(cat, branch, id, c))
  {
  }

  /** Recording a quarter in a status copy of the catalogue keeps it a status copy. */
  lemma SetTakenShape(cat: Catalogue, all: Catalogue, branch: string, id: nat, qt: Option<Quarter>)
    requires SameShape(cat, all) && branch in all.branches && id < |all.branches[branch]|
    ensures SameShape(cat, SetTaken(all, branch, id, qt))
  {
    StatusUpdateKeepsShape(all, branch, id, all.branches[branch][id].(quarterTaken := qt));
    SameShapeTransitive(cat, all, SetTaken(all, branch, id, qt));
  }

  /** Recording credit in a status copy of the catalogue keeps it a status copy. */
  lemma SetCreditShape(cat: Catalogue, all: Catalogue, branch: string, id: nat, credit: Credit)
    requires SameShape(cat, all) && branch in all.branches && id < |all.branches[branch]|
    ensures SameShape(cat, SetCredit(all, branch, id, credit))
  {
    StatusUpdateKeepsShape(all, branch, id, all.branches[branch][id].(credit := credit));
    SameShapeTransitive(cat, all, SetCredit(all, branch, id, credit));
  }

  lemma {:induction false} FirstMatchShape(s: seq<Course>, t: seq<Course>, department: string, number: string)
    requires |s| == |t| && forall i :: 0 <= i < |s| ==> Static(s[i]) == Static(t[i])
    ensures FirstMatch(s, department, number) == FirstMatch(t, department, number)
  {
    if s != [] {
      assert Static(s[0]) == Static(t[0]);
      FirstMatchShape(s[1..], t[1..], department, number);
    }
  }

  /** `getCourseId` does not look at credit status. */
  lemma GetCourseIdShape(a: Catalogue, b: Catalogue, branch: string, department: string, number: string)
    requires SameShape(a, b)
    ensures GetCourseId(a, branch, department, number) == GetCourseId(b, branch, department, number)
  {
    if branch in a.branches {
      FirstMatchShape(a.branches[branch], b.branches[branch], department, number);
    }
  }

  /**
   * The well-formedness the catalogue data must have for the engine never to
   * index a missing record: branch names listed once each in enumeration
   * order, every record carrying its own branch name, every prerequisite
   * resolving, and the special records the fixups use present.
   */
  ghost predicate WellFormed(cat: Catalogue)
  {
    && (forall i, j :: 0 <= i < j < |cat.order| ==> cat.order[i] != cat.order[j])
    && (forall b :: b in cat.branches <==> b in cat.order)
    && (forall b, i :: b in cat.branches && 0 <= i < |cat.branches[b]| ==> cat.branches[b][i].branch == b)
    && (forall b, i, k :: b in cat.branches && 0 <= i < |cat.branches[b]| && 0 <= k < |cat.branches[b][i].prerequisites|
          ==> Resolves(cat, cat.branches[b][i].prerequisites[k]))
    && "core_courses" in cat.branches && |cat.branches["core_courses"]| > 0
    && "engineering_courses" in cat.branches && |cat.branches["engineering_courses"]| > 0
    && Listed(cat, "engineering_courses", "ENGR", "1")
    && Listed(cat, "coen_courses", "COEN", "12")
    && Listed(cat, "CI_courses", "C&I", "1")
    && Listed(cat, "CI_courses", "C&I", "2")
  }

  /** The branch holds a record with this department and number. */
  ghost predicate Listed(cat: Catalogue, branch: string, department: string, number: string)
  {
    branch in cat.branches && exists i :: 0 <= i < |cat.branches[branch]| && Matches(cat.branches[branch][i], department, number)
  }

  /** A listed record has an index: `getCourseId` does not return -1 for it. */
  lemma ListedId(cat: Catalogue, branch: string, department: string, number: string)
    requires Listed(cat, branch, department, number)
    ensures GetCourseId(cat, branch, department, number) >= 0
  {
  }

  /** Being listed does not depend on credit status. */
  lemma ListedShape(a: Catalogue, b: Catalogue, branch: string, department: string, number: string)
    requires SameShape(a, b) && Listed(a, branch, department, number)
    ensures Listed(b, branch, department, number)
  {
    var i :| 0 <= i < |a.branches[branch]| && Matches(a.branches[branch][i], department, number);
    assert Static(a.branches[branch][i]) == Static(b.branches[branch][i]);
  }

  /** Well-formedness does not depend on credit status. */
  lemma WellFormedShape(a: Catalogue, b: Catalogue)
    requires SameShape(a, b) && WellFormed(a)
    ensures WellFormed(b)
  {
    ListedShape(a, b, "engineering_courses", "ENGR", "1");
    ListedShape(a, b, "coen_courses", "COEN", "12");
    ListedShape(a, b, "CI_courses", "C&I", "1");
    ListedShape(a, b, "CI_courses", "C&I", "2");
    forall x, i | x in b.branches && 0 <= i < |b.branches[x]| ensures b.branches[x][i].branch == x {
      assert Static(a.branches[x][i]) == Static(b.branches[x][i]);
    }
    forall x, i, k | x in b.branches && 0 <= i < |b.branches[x]| && 0 <= k < |b.branches[x][i].prerequisites|
      ensures Resolves(b, b.branches[x][i].prerequisites[k])
    {
      PrerequisiteShape(a, b, x, i, k);
    }
  }

  /** A prerequisite of a status copy is the original's and resolves in both alike. */
  lemma PrerequisiteShape(a: Catalogue, b: Catalogue, x: string, i: nat, k: nat)
    requires SameShape(a, b) && x in b.branches && i < |b.branches[x]| && k < |b.branches[x][i].prerequisites|
    ensures k < |a.branches[x][i].prerequisites| && a.branches[x][i].prerequisites[k] == b.branches[x][i].prerequisites[k]
    ensures Resolves(a, a.branches[x][i].prerequisites[k]) == Resolves(b, b.branches[x][i].prerequisites[k])
  {
    assert Static(a.branches[x][i]) == Static(b.branches[x][i]);
    var p := b.branches[x][i].prerequisites[k];
    GetCourseIdShape(a, b, p.branch, p.department, p.number);
  }
}
