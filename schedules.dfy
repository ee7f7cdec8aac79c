/**
 * Schedules and the queries over a quarter of a schedule
 * (js/compute_new_schedule.js, lines 207-289).
 *
 * A quarter's schedule is an object from slot key to slot; its keys are
 * course keys such as "COEN10", filler keys "CORE<n>", and the keys
 * "C&I1", "C&I2" and "ENGR1".
 */
module Schedules {
  import opened Wrappers
  import opened Assoc
  import opened Numerals
  import opened Courses

  type Plan = seq<Entry<Slot>>

  /** `WorkingSchedule` / `BasePlan`: the three quarter objects, enumerated fall, winter, spring. */
  datatype Schedule = Schedule(fall: Plan, winter: Plan, spring: Plan) {

    function Get(q: Quarter): Plan
    {
      match q
      case Fall => fall
      case Winter => winter
      case Spring => spring
    }

    function Set(q: Quarter, p: Plan): (s: Schedule)
      ensures s.Get(q) == p
      ensures forall q' :: q' != q ==> s.Get(q') == Get(q')
    {
      match q
      case Fall => this.(fall := p)
      case Winter => this.(winter := p)
      case Spring => this.(spring := p)
    }
  }

  /** The state one derivation pass works on: `AllCourses` and `WorkingSchedule`. */
  datatype Session = Session(all: Catalogue, schedule: Schedule)

  predicate CoreAt(key: string, i: int)
  {
    0 <= i && i + 4 <= |key| && key[i..i + 4] == "CORE"
  }

  /** `key.indexOf('CORE') > -1`. */
  predicate ContainsCore(key: string)
  {
    exists i :: 0 <= i <= |key| - 4 && CoreAt(key, i)
  }

  /** `'CORE' + n`. */
  function CoreKey(n: nat): (k: string)
    ensures ContainsCore(k)
  {
    var k := "CORE" + NatToString(n);
    assert CoreAt(k, 0);
    k
  }

  /** The number of a key "CORE<digits>", read back; `None` for any other key. */
  function CoreNumber(key: string): Option<nat>
  {
    if |key| > 4 && key[..4] == "CORE" && AllDigits(key[4..]) then Some(DigitsValue(key[4..])) else None
  }

  /** A filler key reads back as the number it was written from. */
  lemma CoreNumberOfCoreKey(n: nat)
    ensures CoreNumber(CoreKey(n)) == Some(n)
  {
    var k := CoreKey(n);
    assert k[..4] == "CORE" && k[4..] == NatToString(n);
    DigitsValueOfNatToString(n);
  }

  /** `numberOfCoresInQuarter(quarter)`: how many keys of the quarter contain "CORE". */
  function NumberOfCoresInQuarter(p: Plan): (n: nat)
    ensures n <= |p|
    ensures n == 0 <==> forall i :: 0 <= i < |p| ==> !ContainsCore(p[i].key)
  {
    if p == [] then 0
    else
      assert forall i :: 1 <= i < |p| ==> p[i] == p[1..][i - 1];
      (if ContainsCore(p[0].key) then 1 else 0) + NumberOfCoresInQuarter(p[1..])
  }

  /**
   * `getACoreForQuarter(quarter)`: the first key, in enumeration order, that
   * contains "CORE"; `None` is the source's -1.
   */
  function GetACoreForQuarter(p: Plan): (r: Option<string>)
    ensures r.Some? ==> ContainsCore(r.value) && Has(p, r.value)
    ensures r.Some? ==> exists i :: 0 <= i < |p| && p[i].key == r.value && forall j :: 0 <= j < i ==> !ContainsCore(p[j].key)
    ensures r.None? <==> NumberOfCoresInQuarter(p) == 0
  {
    if p == [] then None
    else if ContainsCore(p[0].key) then Some(p[0].key)
    else
      var r := GetACoreForQuarter(p[1..]);
      assert forall i :: 1 <= i < |p| ==> p[i] == p[1..][i - 1];
      assert r.Some? ==> exists i :: 0 <= i < |p| && p[i].key == r.value && forall j :: 0 <= j < i ==> !ContainsCore(p[j].key) by {
        if r.Some? {
          var i :| 0 <= i < |p[1..]| && p[1..][i].key == r.value && forall j :: 0 <= j < i ==> !ContainsCore(p[1..][j].key);
          assert p[i + 1] == p[1..][i];
        }
      }
      r
  }

  /** Deleting a filler key the quarter has removes exactly one filler from an object. */
  lemma {:induction false} CoresDelete(p: Plan, k: string)
    ensures NumberOfCoresInQuarter(Delete(p, k)) <= NumberOfCoresInQuarter(p)
    ensures !ContainsCore(k) ==> NumberOfCoresInQuarter(Delete(p, k)) == NumberOfCoresInQuarter(p)
    ensures ContainsCore(k) && Has(p, k) ==> NumberOfCoresInQuarter(Delete(p, k)) < NumberOfCoresInQuarter(p)
    ensures ContainsCore(k) && Has(p, k) && Distinct(p) ==> NumberOfCoresInQuarter(Delete(p, k)) == NumberOfCoresInQuarter(p) - 1
  {
    if p != [] {
      CoresDelete(p[1..], k);
      if p[0].key == k && Distinct(p) {
        DistinctTail(p);
      }
      if Distinct(p) {
        DistinctTail(p);
      }
    }
  }

  /** Writing a key that is not a filler key leaves the number of fillers unchanged. */
  lemma {:induction false} CoresPut(p: Plan, k: string, v: Slot)
    requires !ContainsCore(k)
    ensures NumberOfCoresInQuarter(Put(p, k, v)) == NumberOfCoresInQuarter(p)
  {
    if p == [] {
      assert Put(p, k, v)[1..] == [];
    } else if p[0].key == k {
      assert Put(p, k, v)[1..] == p[1..];
    } else {
      CoresPut(p[1..], k, v);
      assert Put(p, k, v)[1..] == Put(p[1..], k, v);
    }
  }

  /** How many keys of the plan read back as a filler number at least `n`. */
  function CoresFrom(p: Plan, n: nat): nat
  {
    if p == [] then 0
    else
      (match CoreNumber(p[0].key) case Some(m) => if m >= n then 1 else 0 case None => 0) + CoresFrom(p[1..], n)
  }

  lemma {:induction false} CoresFromDrops(p: Plan, n: nat)
    ensures CoresFrom(p, n + 1) <= CoresFrom(p, n)
    ensures Has(p, CoreKey(n)) ==> CoresFrom(p, n + 1) < CoresFrom(p, n)
  {
    if p != [] {
      CoresFromDrops(p[1..], n);
      if p[0].key == CoreKey(n) {
        CoreNumberOfCoreKey(n);
      }
    }
  }

  /** The loop of `nextCore` from `current_core == n`. */
  function NextCoreFrom(p: Plan, n: nat): (r: nat)
    requires forall m :: 0 <= m < n ==> Has(p, CoreKey(m))
    ensures n <= r
    ensures !Has(p, CoreKey(r))
    ensures forall m :: 0 <= m < r ==> Has(p, CoreKey(m))
    decreases CoresFrom(p, n)
  {
    if !Has(p, CoreKey(n)) then n
    else
      CoresFromDrops(p, n);
      NextCoreFrom(p, n + 1)
  }

  /** The number `nextCore` appends to "CORE": the smallest one whose key the quarter does not have. */
  function NextCoreNumber(p: Plan): (n: nat)
    ensures !Has(p, CoreKey(n))
    ensures forall m :: 0 <= m < n ==> Has(p, CoreKey(m))
  {
    NextCoreFrom(p, 0)
  }

  /** `nextCore(quarter)`. */
  function NextCore(p: Plan): string
  {
    CoreKey(NextCoreNumber(p))
  }

  /** `computeTotalUnitsWithoutEngr1(quarter)`: the units of every slot but "ENGR1". */
  function ComputeTotalUnitsWithoutEngr1(p: Plan): nat
  {
    if p == [] then 0
    else (if p[0].key == "ENGR1" then 0 else p[0].val.units) + ComputeTotalUnitsWithoutEngr1(p[1..])
  }

  /** Adding, replacing or deleting "ENGR1" leaves the quarter's units unchanged. */
  lemma {:induction false} UnitsIgnoreEngr1(p: Plan, s: Slot)
    ensures ComputeTotalUnitsWithoutEngr1(Put(p, "ENGR1", s)) == ComputeTotalUnitsWithoutEngr1(p)
    ensures ComputeTotalUnitsWithoutEngr1(Delete(p, "ENGR1")) == ComputeTotalUnitsWithoutEngr1(p)
  {
    if p != [] {
      UnitsIgnoreEngr1(p[1..], s);
      if p[0].key == "ENGR1" {
        assert Put(p, "ENGR1", s) == [Entry("ENGR1", s)] + p[1..];
        assert Put(p, "ENGR1", s)[1..] == p[1..];
      } else {
        assert Put(p, "ENGR1", s)[1..] == Put(p[1..], "ENGR1", s);
      }
    } else {
      assert Put(p, "ENGR1", s)[1..] == [];
    }
  }

  /** Deleting another slot lowers the quarter's units by that slot's units. */
  lemma {:induction false} UnitsDelete(p: Plan, k: string)
    requires Distinct(p) && k != "ENGR1" && Has(p, k)
    ensures ComputeTotalUnitsWithoutEngr1(Delete(p, k)) + Lookup(p, k).value.units == ComputeTotalUnitsWithoutEngr1(p)
  {
    DistinctTail(p);
    if p[0].key == k {
      assert Delete(p[1..], k) == p[1..];
    } else {
      UnitsDelete(p[1..], k);
    }
  }

  /**
   * The quarter, in enumeration order, whose object has the key: the search
   * of `quarterTaken`, of the first step of `removeCourse` and of `moveEngr1`.
   */
  function QuarterWith(s: Schedule, k: string): (r: Option<Quarter>)
    ensures r.Some? ==> Has(s.Get(r.value), k)
    ensures r.Some? ==> forall q :: Order(q) < Order(r.value) ==> !Has(s.Get(q), k)
    ensures r.None? <==> forall q :: !Has(s.Get(q), k)
  {
    if Has(s.fall, k) then Some(Fall)
    else if Has(s.winter, k) then Some(Winter)
    else if Has(s.spring, k) then Some(Spring)
    else None
  }

  /** A slot whose branch holds its course, so that `getCourseId` finds it. */
  predicate SlotResolves(cat: Catalogue, s: Slot)
  {
    GetCourseId(cat, s.branch, s.department, s.number) >= 0
  }

  predicate PlanOk(cat: Catalogue, p: Plan)
  {
    Distinct(p) && forall e :: e in p ==> SlotResolves(cat, e.val)
  }

  /** Every quarter is an object (no repeated key) of slots that resolve. */
  predicate ScheduleOk(cat: Catalogue, s: Schedule)
  {
    PlanOk(cat, s.fall) && PlanOk(cat, s.winter) && PlanOk(cat, s.spring)
  }

  /** What every step of a derivation pass keeps: `AllCourses` is a status copy of the catalogue. */
  ghost predicate SessionOk(cat: Catalogue, st: Session)
  {
    SameShape(cat, st.all) && ScheduleOk(cat, st.schedule)
  }

  lemma PutOk(cat: Catalogue, p: Plan, k: string, v: Slot)
    requires PlanOk(cat, p) && SlotResolves(cat, v)
    ensures PlanOk(cat, Put(p, k, v))
  {
  }

  lemma DeleteOk(cat: Catalogue, p: Plan, k: string)
    requires PlanOk(cat, p)
    ensures PlanOk(cat, Delete(p, k))
  {
    DeleteDistinct(p, k);
  }

  lemma SetOk(cat: Catalogue, s: Schedule, q: Quarter, p: Plan)
    requires ScheduleOk(cat, s) && PlanOk(cat, p)
    ensures ScheduleOk(cat, s.Set(q, p))
  {
  }

  lemma PlanOkShape(a: Catalogue, b: Catalogue, p: Plan)
    requires SameShape(a, b) && PlanOk(a, p)
    ensures PlanOk(b, p)
  {
    forall e | e in p ensures SlotResolves(b, e.val) {
      GetCourseIdShape(a, b, e.val.branch, e.val.department, e.val.number);
    }
  }

  lemma ScheduleOkShape(a: Catalogue, b: Catalogue, s: Schedule)
    requires SameShape(a, b) && ScheduleOk(a, s)
    ensures ScheduleOk(b, s)
  {
    PlanOkShape(a, b, s.fall);
    PlanOkShape(a, b, s.winter);
    PlanOkShape(a, b, s.spring);
  }

  /** A record of the catalogue, as a slot of its own branch, resolves. */
  lemma RecordSlotResolves(cat: Catalogue, branch: string, id: nat)
    requires branch in cat.branches && id < |cat.branches[branch]|
    ensures SlotResolves(cat, SlotOf(cat.branches[branch][id], branch))
  {
    var c := cat.branches[branch][id];
    var r := GetCourseId(cat, branch, c.department, c.number);
    assert r != -1;
  }
}
