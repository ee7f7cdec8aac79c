/**
 * The recursive substitution `removeCourse(course_title, quarter)`
 * (js/compute_new_schedule.js, lines 531-621): removing a placed course
 * pulls its branch successor into the vacated quarter and continues with the
 * successor at its next offering; without a successor a filler slot takes
 * the place, and the chain ends with the fixups.
 */
module Derivation {
  import opened Wrappers
  import opened Assoc
  import opened Courses
  import opened Eligibility
  import opened Schedules
  import opened Fixups

  /**
   * The `quarter` argument of a recursive call: a quarter, or the sentinel -1
   * that runs the fixups (`nextOffering` yields -1 too). The first call,
   * without a quarter, is `Remove`.
   */
  datatype Pointer = At(q: Quarter) | Stop

  /** The termination measure: every recursive call moves to a later quarter or to the sentinel. */
  function Rank(p: Pointer): nat
  {
    match p
    case At(q) => 3 - Order(q)
    case Stop => 0
  }

  /** Where the chain goes after placing a successor offered in `offering` in `q`. */
  function After(offering: seq<Quarter>, q: Quarter): (p: Pointer)
    ensures Rank(p) < Rank(At(q))
    ensures p.At? ==> Order(q) < Order(p.q) && p.q in offering
  {
    match NextOffering(offering, q)
    case None => Stop
    case Some(q') => At(q')
  }

  lemma WellFormedBranchResolves(cat: Catalogue, branch: string)
    requires WellFormed(cat) && branch in cat.branches
    ensures BranchResolves(cat, branch)
  {
  }

  /** One substitution step: the state the source reaches just before its recursive call, and that call's arguments. */
  datatype Next = Next(st: Session, key: string, at: Pointer)

  /** The record index of the slot at `key` in quarter `q`: `getCourseId(course.branch, …)`. */
  function SlotId(cat: Catalogue, st: Session, key: string, q: Quarter): (id: nat)
    requires SessionOk(cat, st) && Has(st.schedule.Get(q), key)
    ensures var slot := Lookup(st.schedule.Get(q), key).value;
      slot.branch in cat.branches && id < |cat.branches[slot.branch]|
      && id == GetCourseId(cat, slot.branch, slot.department, slot.number)
  {
    LookupFound(st.schedule.Get(q), key);
    var slot := Lookup(st.schedule.Get(q), key).value;
    GetCourseId(cat, slot.branch, slot.department, slot.number)
  }

  /**
   * `delete WorkingSchedule[q][key]`, then `AllCourses[branch][id].quarter_taken
   * = quarterTaken(title)`: the quarter in which `title` still sits, if any.
   */
  function Vacate(st: Session, key: string, q: Quarter, branch: string, id: nat, title: string): (r: Session)
    requires branch in st.all.branches && id < |st.all.branches[branch]|
    ensures r.schedule == st.schedule.Set(q, Delete(st.schedule.Get(q), key))
  {
    var s1 := st.schedule.Set(q, Delete(st.schedule.Get(q), key));
    Session(SetTaken(st.all, branch, id, QuarterWith(s1, title)), s1)
  }

  lemma VacateOk(cat: Catalogue, st: Session, key: string, q: Quarter, branch: string, id: nat, title: string)
    requires SessionOk(cat, st) && branch in st.all.branches && id < |st.all.branches[branch]|
    ensures SessionOk(cat, Vacate(st, key, q, branch, id, title))
  {
    var s1 := st.schedule.Set(q, Delete(st.schedule.Get(q), key));
    DeleteOk(cat, st.schedule.Get(q), key);
    SetOk(cat, st.schedule, q, Delete(st.schedule.Get(q), key));
    SetTakenShape(cat, st.all, branch, id, QuarterWith(s1, title));
  }

  /** `WorkingSchedule[q][k] = v`. */
  function Fill(s: Schedule, q: Quarter, k: string, v: Slot): (r: Schedule)
    ensures Lookup(r.Get(q), k) == Some(v)
    ensures forall j :: j != k ==> Lookup(r.Get(q), j) == Lookup(s.Get(q), j)
    ensures forall q' :: q' != q ==> r.Get(q') == s.Get(q')
  {
    s.Set(q, Put(s.Get(q), k, v))
  }

  lemma FillOk(cat: Catalogue, s: Schedule, q: Quarter, k: string, v: Slot)
    requires ScheduleOk(cat, s) && SlotResolves(cat, v)
    ensures ScheduleOk(cat, Fill(s, q, k, v))
  {
    PutOk(cat, s.Get(q), k, v);
    SetOk(cat, s, q, Put(s.Get(q), k, v));
  }

  /** The successor's record: `quarter_taken = q` and `credit = 'YES'`. */
  function Earn(all: Catalogue, branch: string, id: nat, q: Quarter): (r: Catalogue)
    requires branch in all.branches && id < |all.branches[branch]|
    ensures branch in r.branches && id < |r.branches[branch]|
    ensures r.branches[branch][id].credit == Yes && r.branches[branch][id].quarterTaken == Some(q)
  {
    SetCredit(SetTaken(all, branch, id, Some(q)), branch, id, Yes)
  }

  lemma EarnShape(cat: Catalogue, all: Catalogue, branch: string, id: nat, q: Quarter)
    requires SameShape(cat, all) && branch in all.branches && id < |all.branches[branch]|
    ensures SameShape(cat, Earn(all, branch, id, q))
  {
    SetTakenShape(cat, all, branch, id, Some(q));
    SetCreditShape(cat, SetTaken(all, branch, id, Some(q)), branch, id, Yes);
  }

  /** The removed slot, its record index and the branch search `nextCourseAfter` runs for it. */
  function Successor(cat: Catalogue, st: Session, key: string, q: Quarter): (r: Option<(Course, nat)>)
    requires WellFormed(cat) && SessionOk(cat, st) && Has(st.schedule.Get(q), key)
    ensures var slot := Lookup(st.schedule.Get(q), key).value;
      r.Some? ==> slot.branch in cat.branches && r.value.1 < |cat.branches[slot.branch]|
                  && r.value.0 == cat.branches[slot.branch][r.value.1]
  {
    var slot := Lookup(st.schedule.Get(q), key).value;
    var id := SlotId(cat, st, key, q);
    WellFormedBranchResolves(cat, slot.branch);
    NextCourseAfter(cat, slot.branch, id, q)
  }

  /**
   * The body of `removeCourse(key, q)` for a key placed in `q`: vacate the
   * slot, then either put the branch successor in `q`, earned and taken in
   * `q`, and continue with it at its next offering, or put a filler and go
   * to the sentinel.
   */
  function Step(cat: Catalogue, st: Session, key: string, q: Quarter): (r: Next)
    requires WellFormed(cat) && SessionOk(cat, st) && Has(st.schedule.Get(q), key)
    ensures r.at.Stop? || (r.at.At? && Order(q) < Order(r.at.q))
  {
    var slot := Lookup(st.schedule.Get(q), key).value;
    var id := SlotId(cat, st, key, q);
    var st1 := Vacate(st, key, q, slot.branch, id, slot.department + slot.number);
    VacateOk(cat, st, key, q, slot.branch, id, slot.department + slot.number);
    var next := Successor(cat, st, key, q);
    if next.None? then
      var p1 := st1.schedule.Get(q);
      FillOk(cat, st1.schedule, q, NextCore(p1), CoreSlot(cat));
      Next(Session(st1.all, Fill(st1.schedule, q, NextCore(p1), CoreSlot(cat))), "BASECASE", Stop)
    else
      Advance(cat, st1, slot.branch, next.value.1, q)
  }

  /** A step keeps the session invariant. */
  lemma StepOk(cat: Catalogue, st: Session, key: string, q: Quarter)
    requires WellFormed(cat) && SessionOk(cat, st) && Has(st.schedule.Get(q), key)
    ensures SessionOk(cat, Step(cat, st, key, q).st)
  {
    if Successor(cat, st, key, q).None? {
      StepFillerOk(cat, st, key, q);
    } else {
      StepAdvanceOk(cat, st, key, q);
    }
  }

  lemma StepFillerOk(cat: Catalogue, st: Session, key: string, q: Quarter)
    requires WellFormed(cat) && SessionOk(cat, st) && Has(st.schedule.Get(q), key)
    requires Successor(cat, st, key, q).None?
    ensures SessionOk(cat, Step(cat, st, key, q).st) && Step(cat, st, key, q).at == Stop
  {
    var slot := Lookup(st.schedule.Get(q), key).value;
    var id := SlotId(cat, st, key, q);
    var st1 := Vacate(st, key, q, slot.branch, id, slot.department + slot.number);
    VacateOk(cat, st, key, q, slot.branch, id, slot.department + slot.number);
    FillOk(cat, st1.schedule, q, NextCore(st1.schedule.Get(q)), CoreSlot(cat));
  }

  lemma StepAdvanceOk(cat: Catalogue, st: Session, key: string, q: Quarter)
    requires WellFormed(cat) && SessionOk(cat, st) && Has(st.schedule.Get(q), key)
    requires Successor(cat, st, key, q).Some?
    ensures SessionOk(cat, Step(cat, st, key, q).st)
  {
    var slot := Lookup(st.schedule.Get(q), key).value;
    var id := SlotId(cat, st, key, q);
    var st1 := Vacate(st, key, q, slot.branch, id, slot.department + slot.number);
    VacateOk(cat, st, key, q, slot.branch, id, slot.department + slot.number);
    assert Step(cat, st, key, q) == Advance(cat, st1, slot.branch, Successor(cat, st, key, q).value.1, q);
  }

  /**
   * The successor branch of a step: `AllCourses[branch][nid]` earned and
   * taken in `q`, its slot under its department+number key in `q`, and the
   * chain continuing with that key at the successor's next offering.
   */
  function Advance(cat: Catalogue, st: Session, branch: string, nid: nat, q: Quarter): (r: Next)
    requires SessionOk(cat, st) && branch in cat.branches && nid < |cat.branches[branch]|
    ensures SessionOk(cat, r.st)
    ensures r.at.Stop? || (r.at.At? && Order(q) < Order(r.at.q))
  {
    var c := cat.branches[branch][nid];
    var k := c.department + c.number;
    EarnShape(cat, st.all, branch, nid, q);
    RecordSlotResolves(cat, branch, nid);
    FillOk(cat, st.schedule, q, k, SlotOf(c, branch));
    Next(Session(Earn(st.all, branch, nid, q), Fill(st.schedule, q, k, SlotOf(c, branch))), k, After(c.offering, q))
  }

  /** `removeCourse(key, at)` for a quarter or the sentinel: the substitution chain and the fixups that end it. */
  function Chain(cat: Catalogue, st: Session, key: string, at: Pointer): (r: Session)
    requires WellFormed(cat) && SessionOk(cat, st)
    ensures SessionOk(cat, r)
    decreases Rank(at)
  {
    if at.Stop? || !Has(st.schedule.Get(at.q), key) then Finish(cat, st)
    else
      var n := Step(cat, st, key, at.q);
      StepOk(cat, st, key, at.q);
      Chain(cat, n.st, n.key, n.at)
  }

  /**
   * `removeCourse(key)`, the first call: the chain from the first quarter
   * holding the key, or else marking the key's record as earned. `None` is
   * the TypeError the source throws when the key is in no quarter and
   * matches no record (line 567 then indexes `WorkingSchedule[undefined]`).
   */
  function Remove(cat: Catalogue, st: Session, key: string): (r: Option<Session>)
    requires WellFormed(cat) && SessionOk(cat, st)
    ensures r.Some? ==> SessionOk(cat, r.value)
  {
    match QuarterWith(st.schedule, key)
    case Some(q) => Some(Chain(cat, st, key, At(q)))
    case None =>
      var (department, number) := SplitKey(key);
      match FindRecord(st.all, department, number)
      case Some((branch, i)) =>
        SetCreditShape(cat, st.all, branch, i, Yes);
        Some(Session(SetCredit(st.all, branch, i, Yes), st.schedule))
      case None => None
  }

  // ---------------------------------------------------------------------------
  // What one step does

  /**
   * With a successor: `key` leaves `q`, the successor's department+number
   * key holds its slot (carrying the removed slot's branch), every other key
   * of `q` and every other quarter is as before, the successor's record is
   * earned and taken in `q`, and the chain continues with the successor at
   * its next offering.
   */
  lemma StepPlacesSuccessor(cat: Catalogue, st: Session, key: string, q: Quarter)
    requires WellFormed(cat) && SessionOk(cat, st) && Has(st.schedule.Get(q), key)
    requires Successor(cat, st, key, q).Some?
    ensures var slot := Lookup(st.schedule.Get(q), key).value;
      var (c, nid) := Successor(cat, st, key, q).value;
      var k := c.department + c.number;
      var r := Step(cat, st, key, q);
      && r.key == k && r.at == After(c.offering, q)
      && Lookup(r.st.schedule.Get(q), k) == Some(SlotOf(c, slot.branch))
      && (key != k ==> !Has(r.st.schedule.Get(q), key))
      && (forall j :: j != key && j != k ==> Lookup(r.st.schedule.Get(q), j) == Lookup(st.schedule.Get(q), j))
      && (forall q' :: q' != q ==> r.st.schedule.Get(q') == st.schedule.Get(q'))
      && r.st.all.branches[slot.branch][nid].credit == Yes
      && r.st.all.branches[slot.branch][nid].quarterTaken == Some(q)
  {
  }

  /**
   * Without a successor: `key` leaves `q` and `q` gains exactly one new key,
   * `CORE<n>` for the smallest `n` the quarter does not use, holding a
   * snapshot of the first core course; no other key of `q` and no other
   * quarter changes before the fixups run.
   */
  lemma StepTakesFiller(cat: Catalogue, st: Session, key: string, q: Quarter)
    requires WellFormed(cat) && SessionOk(cat, st) && Has(st.schedule.Get(q), key)
    requires Successor(cat, st, key, q).None?
    ensures var r := Step(cat, st, key, q);
      var p1 := Delete(st.schedule.Get(q), key);
      var n := NextCoreNumber(p1);
      && r.at == Stop
      && !Has(p1, CoreKey(n)) && (forall m :: 0 <= m < n ==> Has(p1, CoreKey(m)))
      && Lookup(r.st.schedule.Get(q), CoreKey(n)) == Some(CoreSlot(cat))
      && (CoreKey(n) != key ==> !Has(r.st.schedule.Get(q), key))
      && (forall j :: j != key && j != CoreKey(n) ==> Lookup(r.st.schedule.Get(q), j) == Lookup(st.schedule.Get(q), j))
      && (forall q' :: q' != q ==> r.st.schedule.Get(q') == st.schedule.Get(q'))
  {
  }

  /**
   * Either way, the removed course's record records the quarter in which its
   * key still sits after the deletion, or none, unless the successor is that
   * very record.
   */
  lemma StepRecordsRemoval(cat: Catalogue, st: Session, key: string, q: Quarter)
    requires WellFormed(cat) && SessionOk(cat, st) && Has(st.schedule.Get(q), key)
    ensures var slot := Lookup(st.schedule.Get(q), key).value;
      var id := SlotId(cat, st, key, q);
      var next := Successor(cat, st, key, q);
      var s1 := st.schedule.Set(q, Delete(st.schedule.Get(q), key));
      (next.None? || next.value.1 != id) ==>
        Step(cat, st, key, q).st.all.branches[slot.branch][id].quarterTaken == QuarterWith(s1, slot.department + slot.number)
  {
  }

  // ---------------------------------------------------------------------------
  // The first call

  /** The first call on a placed key is the call at the first quarter, in enumeration order, holding it. */
  lemma RemovePlacedKey(cat: Catalogue, st: Session, key: string)
    requires WellFormed(cat) && SessionOk(cat, st)
    requires QuarterWith(st.schedule, key).Some?
    ensures Remove(cat, st, key) == Some(Chain(cat, st, key, At(QuarterWith(st.schedule, key).value)))
  {
  }

  /**
   * The first call on a key that is in no quarter leaves the schedule as it
   * is and only marks as earned the first record, in enumeration order, whose
   * department and number concatenate to the key; with no such record it
   * throws.
   */
  lemma RemoveUnplacedKey(cat: Catalogue, st: Session, key: string)
    requires WellFormed(cat) && SessionOk(cat, st)
    requires QuarterWith(st.schedule, key).None?
    ensures var (department, number) := SplitKey(key);
      var r := Remove(cat, st, key);
      && department + number == key
      && (r.Some? <==> FindRecord(st.all, department, number).Some?)
      && (r.Some? ==> var (branch, i) := FindRecord(st.all, department, number).value;
            && r.value.schedule == st.schedule
            && r.value.all == SetCredit(st.all, branch, i, Yes)
            && Matches(st.all.branches[branch][i], department, number))
  {
  }

  /**
   * The first call on a placed key acts at the first quarter `q`, in
   * enumeration order, holding it: the key leaves `q`. Without a successor,
   * `q` gains exactly `CORE<n>` for the smallest `n` it does not use, nothing
   * else changes, and the removal ends with the three fixups on that state.
   * With a successor, the successor's key takes the place in `q`, its record
   * is earned and taken in `q`, nothing else in the schedule changes, and the
   * removal goes on with the successor at its next offering.
   */
  lemma RemovePlaced(cat: Catalogue, st: Session, key: string)
    requires WellFormed(cat) && SessionOk(cat, st) && QuarterWith(st.schedule, key).Some?
    ensures var q := QuarterWith(st.schedule, key).value;
      var p := st.schedule.Get(q);
      (StepOk(cat, st, key, q);
      var n := Step(cat, st, key, q);
      && (forall q' :: Order(q') < Order(q) ==> !Has(st.schedule.Get(q'), key))
      && Remove(cat, st, key) == Some(Chain(cat, n.st, n.key, n.at))
      && (forall q' :: q' != q ==> n.st.schedule.Get(q') == st.schedule.Get(q'))
      && (Successor(cat, st, key, q).None? ==>
            var c := CoreKey(NextCoreNumber(Delete(p, key)));
            && Remove(cat, st, key) == Some(Finish(cat, n.st))
            && !Has(Delete(p, key), c)
            && Lookup(n.st.schedule.Get(q), c) == Some(CoreSlot(cat))
            && (c != key ==> !Has(n.st.schedule.Get(q), key))
            && (forall j :: j != key && j != c ==> Lookup(n.st.schedule.Get(q), j) == Lookup(p, j)))
      && (Successor(cat, st, key, q).Some? ==>
            var slot := Lookup(p, key).value;
            var (crs, nid) := Successor(cat, st, key, q).value;
            var k := crs.department + crs.number;
            && n.key == k && n.at == After(crs.offering, q)
            && Lookup(n.st.schedule.Get(q), k) == Some(SlotOf(crs, slot.branch))
            && (key != k ==> !Has(n.st.schedule.Get(q), key))
            && (forall j :: j != key && j != k ==> Lookup(n.st.schedule.Get(q), j) == Lookup(p, j))
            && n.st.all.branches[slot.branch][nid].credit == Yes
            && n.st.all.branches[slot.branch][nid].quarterTaken == Some(q)))
  {
    var q := QuarterWith(st.schedule, key).value;
    StepOk(cat, st, key, q);
    RemovePlacedKey(cat, st, key);
    var n := Step(cat, st, key, q);
    if Successor(cat, st, key, q).None? {
      StepTakesFiller(cat, st, key, q);
      RemoveFinishes(cat, n.st, n.key, q);
    } else {
      StepPlacesSuccessor(cat, st, key, q);
    }
  }

  /** An unknown key at a given quarter, and the sentinel, both go straight to the fixups. */
  lemma RemoveFinishes(cat: Catalogue, st: Session, key: string, q: Quarter)
    requires WellFormed(cat) && SessionOk(cat, st)
    ensures !Has(st.schedule.Get(q), key) ==> Chain(cat, st, key, At(q)) == Finish(cat, st)
    ensures Chain(cat, st, key, Stop) == Finish(cat, st)
  {
  }
}
