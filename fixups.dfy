/**
 * The fixup passes that run when a substitution chain ends
 * (js/compute_new_schedule.js, "SCHEDULE MANIPULATION FUNCTIONS"), as
 * functions from the state before the pass to the state after it.
 */
module Fixups {
  import opened Wrappers
  import opened Assoc
  import opened Courses
  import opened Schedules

  /** The slot object `moveEngr1` writes for ENGR1 (its units string is '2'). */
  const Engr1Slot := Slot("ENGR", "1", "engineering_courses", [Fall, Winter], "engineering", 2, [])

  /** `delete q[getACoreForQuarter(q)]`: deleting key -1 when no filler is left changes nothing. */
  function DeleteCore(p: Plan): (r: Plan)
    ensures GetACoreForQuarter(p).None? ==> r == p
    ensures GetACoreForQuarter(p).Some? ==> r == Delete(p, GetACoreForQuarter(p).value)
  {
    match GetACoreForQuarter(p)
    case None => p
    case Some(k) => Delete(p, k)
  }

  /** The filler slot: a snapshot of `core_courses[0]`. */
  function CoreSlot(cat: Catalogue): (s: Slot)
    requires WellFormed(cat)
    ensures SlotResolves(cat, s)
  {
    RecordSlotResolves(cat, "core_courses", 0);
    SlotOf(cat.branches["core_courses"][0], "core_courses")
  }

  // ---------------------------------------------------------------------------
  // fixCoen12

  /** The condition under which `fixCoen12` changes the schedule. */
  predicate Coen12Misplaced(s: Schedule)
  {
    && (Has(s.winter, "COEN12") || Has(s.spring, "COEN12"))
    && !(GetACoreForQuarter(s.fall).Some? && GetACoreForQuarter(s.winter).Some? && Has(s.spring, "COEN12"))
    && !(Has(s.fall, "COEN10") || Has(s.fall, "COEN11"))
  }

  /**
   * `fixCoen12()`: unless COEN12 is absent from winter and spring, or fall and
   * winter both hold a filler while spring holds COEN12, or fall holds COEN10
   * or COEN11, COEN12 moves to spring in place of a spring filler and winter
   * gets a new filler.
   */
  function FixCoen12(cat: Catalogue, s: Schedule): (r: Schedule)
    requires WellFormed(cat)
    ensures ScheduleOk(cat, s) ==> ScheduleOk(cat, r)
  {
    if !Has(s.winter, "COEN12") && !Has(s.spring, "COEN12") then s
    else if GetACoreForQuarter(s.fall).Some? && GetACoreForQuarter(s.winter).Some? && Has(s.spring, "COEN12") then s
    else if Has(s.fall, "COEN10") || Has(s.fall, "COEN11") then s
    else
      var id := GetCourseId(cat, "coen_courses", "COEN", "12");
      var coen12 := SlotOf(cat.branches["coen_courses"][id], "coen_courses");
      RecordSlotResolves(cat, "coen_courses", id);
      var spring := Put(DeleteCore(s.spring), "COEN12", coen12);
      var winter := Delete(s.winter, "COEN12");
      var r := Schedule(s.fall, Put(winter, NextCore(winter), CoreSlot(cat)), spring);
      assert ScheduleOk(cat, s) ==> ScheduleOk(cat, r) by {
        if ScheduleOk(cat, s) {
          DeleteOk(cat, s.spring, if GetACoreForQuarter(s.spring).Some? then GetACoreForQuarter(s.spring).value else "");
          DeleteOk(cat, s.winter, "COEN12");
        }
      }
      r
  }

  /** The two outcomes of `fixCoen12`, in the terms of the statements that produce them. */
  lemma FixCoen12Cases(cat: Catalogue, s: Schedule)
    requires WellFormed(cat)
    ensures !Coen12Misplaced(s) ==> FixCoen12(cat, s) == s
    ensures Coen12Misplaced(s) ==>
      var id := GetCourseId(cat, "coen_courses", "COEN", "12");
      var winter := Delete(s.winter, "COEN12");
      FixCoen12(cat, s) == Schedule(s.fall, Put(winter, NextCore(winter), CoreSlot(cat)),
                                    Put(DeleteCore(s.spring), "COEN12", SlotOf(cat.branches["coen_courses"][id], "coen_courses")))
  {
  }

  /**
   * What `fixCoen12` does: nothing unless COEN12 is misplaced; otherwise
   * COEN12 leaves winter and holds in spring the slot of its `coen_courses`
   * record, the first spring filler if any is
   * gone, winter gains the filler key `nextCore` picks, and fall and every
   * other key stay as they were.
   */
  lemma FixCoen12Moves(cat: Catalogue, s: Schedule)
    requires WellFormed(cat)
    ensures !Coen12Misplaced(s) ==> FixCoen12(cat, s) == s
    ensures Coen12Misplaced(s) ==> var r := FixCoen12(cat, s);
      var n := NextCoreNumber(Delete(s.winter, "COEN12"));
      && r.fall == s.fall
      && !Has(r.winter, "COEN12")
      && Lookup(r.spring, "COEN12") == Some(SlotOf(cat.branches["coen_courses"][GetCourseId(cat, "coen_courses", "COEN", "12")], "coen_courses"))
      && !Has(Delete(s.winter, "COEN12"), CoreKey(n)) && Lookup(r.winter, CoreKey(n)) == Some(CoreSlot(cat))
      && (forall k :: k != "COEN12" && k != CoreKey(n) ==> Lookup(r.winter, k) == Lookup(s.winter, k))
      && (GetACoreForQuarter(s.spring).Some? ==> !Has(r.spring, GetACoreForQuarter(s.spring).value))
      && (forall k :: k != "COEN12" && Some(k) != GetACoreForQuarter(s.spring) ==> Lookup(r.spring, k) == Lookup(s.spring, k))
  {
    FixCoen12Cases(cat, s);
    if Coen12Misplaced(s) {
      var id := GetCourseId(cat, "coen_courses", "COEN", "12");
      Coen12MoveEffect(s, CoreSlot(cat), SlotOf(cat.branches["coen_courses"][id], "coen_courses"));
    }
  }

  /** The move of `fixCoen12` on any two slots written for the filler and for COEN12. */
  lemma Coen12MoveEffect(s: Schedule, core: Slot, coen12: Slot)
    ensures var winter := Delete(s.winter, "COEN12");
      var r := Schedule(s.fall, Put(winter, NextCore(winter), core), Put(DeleteCore(s.spring), "COEN12", coen12));
      var n := NextCoreNumber(winter);
      && !Has(r.winter, "COEN12") && Lookup(r.spring, "COEN12") == Some(coen12)
      && !Has(winter, CoreKey(n)) && Lookup(r.winter, CoreKey(n)) == Some(core)
      && (forall k :: k != "COEN12" && k != CoreKey(n) ==> Lookup(r.winter, k) == Lookup(s.winter, k))
      && (GetACoreForQuarter(s.spring).Some? ==> !Has(r.spring, GetACoreForQuarter(s.spring).value))
      && (forall k :: k != "COEN12" && Some(k) != GetACoreForQuarter(s.spring) ==> Lookup(r.spring, k) == Lookup(s.spring, k))
  {
    Coen12WinterEffect(s.winter, core);
    Coen12SpringEffect(s.spring, coen12);
  }

  /** Winter loses COEN12 and gains the filler key `nextCore` picks. */
  lemma Coen12WinterEffect(p: Plan, core: Slot)
    ensures var winter := Delete(p, "COEN12");
      var n := NextCoreNumber(winter);
      var r := Put(winter, NextCore(winter), core);
      && !Has(r, "COEN12")
      && !Has(winter, CoreKey(n)) && Lookup(r, CoreKey(n)) == Some(core)
      && (forall k :: k != "COEN12" && k != CoreKey(n) ==> Lookup(r, k) == Lookup(p, k))
  {
    var winter := Delete(p, "COEN12");
    var key := CoreKey(NextCoreNumber(winter));
    Coen12IsNotCore();
    assert key != "COEN12";
    var r := Put(winter, key, core);
    assert Lookup(r, "COEN12") == Lookup(winter, "COEN12");
    forall k | k != "COEN12" && k != key ensures Lookup(r, k) == Lookup(p, k) {
      assert Lookup(r, k) == Lookup(winter, k);
    }
  }

  /** Spring loses its first filler and gains COEN12. */
  lemma Coen12SpringEffect(p: Plan, coen12: Slot)
    ensures var r := Put(DeleteCore(p), "COEN12", coen12);
      && Has(r, "COEN12")
      && (GetACoreForQuarter(p).Some? ==> !Has(r, GetACoreForQuarter(p).value))
      && (forall k :: k != "COEN12" && Some(k) != GetACoreForQuarter(p) ==> Lookup(r, k) == Lookup(p, k))
  {
    Coen12IsNotCore();
  }

  /** COEN12 is not a filler key. */
  lemma Coen12IsNotCore()
    ensures !ContainsCore("COEN12")
  {
    assert "COEN12"[0..4][2] != "CORE"[2];
    assert "COEN12"[1..5][0] != "CORE"[0];
    assert "COEN12"[2..6][0] != "CORE"[0];
  }

  // ---------------------------------------------------------------------------
  // moveEngr1

  /** The largest load, without ENGR1, that still lets `moveEngr1` place ENGR1 in a quarter. */
  const Engr1Threshold := 17

  /** What `moveEngr1` decides: drop ENGR1, place it in fall or winter, or leave everything. */
  datatype Engr1Move = Drop | Place(q: Quarter) | Stay

  /**
   * The decision of `moveEngr1()`: drop ENGR1 when fall and winter both carry
   * more than 17 units without it; otherwise move it to the lighter of the
   * two (fall on a tie) unless it is already there.
   */
  function Engr1Decision(s: Schedule): (d: Engr1Move)
    ensures d.Place? ==> d.q != Spring && QuarterWith(s, "ENGR1") != Some(d.q)
  {
    var qo := QuarterWith(s, "ENGR1");
    var fall := ComputeTotalUnitsWithoutEngr1(s.fall);
    var winter := ComputeTotalUnitsWithoutEngr1(s.winter);
    if fall > Engr1Threshold && winter > Engr1Threshold then Drop
    else if fall <= winter && qo != Some(Fall) then Place(Fall)
    else if fall > winter && qo != Some(Winter) then Place(Winter)
    else Stay
  }

  /**
   * `delete WorkingSchedule[quarter_offered]['ENGR1']` for the quarter ENGR1
   * was found in, when that is fall or winter.
   */
  function DropEngr1(s: Schedule): (r: Schedule)
    ensures r.spring == s.spring
  {
    match QuarterWith(s, "ENGR1")
    case Some(Fall) => s.(fall := Delete(s.fall, "ENGR1"))
    case Some(Winter) => s.(winter := Delete(s.winter, "ENGR1"))
    case _ => s
  }

  lemma DropEngr1Ok(cat: Catalogue, s: Schedule)
    requires ScheduleOk(cat, s)
    ensures ScheduleOk(cat, DropEngr1(s))
  {
    DeleteOk(cat, s.fall, "ENGR1");
    DeleteOk(cat, s.winter, "ENGR1");
  }

  /** The schedule half of `moveEngr1`. */
  function MoveEngr1Schedule(s: Schedule): (r: Schedule)
  {
    match Engr1Decision(s)
    case Drop => DropEngr1(s)
    case Place(q) => var s1 := DropEngr1(s); s1.Set(q, Put(s1.Get(q), "ENGR1", Engr1Slot))
    case Stay => s
  }

  lemma MoveEngr1ScheduleOk(cat: Catalogue, s: Schedule)
    requires ScheduleOk(cat, s) && WellFormed(cat)
    ensures ScheduleOk(cat, MoveEngr1Schedule(s))
  {
    DropEngr1Ok(cat, s);
    assert SlotResolves(cat, Engr1Slot);
    var s1 := DropEngr1(s);
    match Engr1Decision(s)
    case Drop =>
    case Place(q) => PutOk(cat, s1.Get(q), "ENGR1", Engr1Slot); SetOk(cat, s1, q, Put(s1.Get(q), "ENGR1", Engr1Slot));
    case Stay =>
  }

  /**
   * What `moveEngr1()` writes to ENGR1's record (position 0 of
   * engineering_courses): no quarter when ENGR1 is dropped, the target
   * quarter when it is placed.
   */
  function Engr1Record(all: Catalogue, s: Schedule): (r: Catalogue)
    requires "engineering_courses" in all.branches && 0 < |all.branches["engineering_courses"]|
  {
    match Engr1Decision(s)
    case Stay => all
    case Drop => SetTaken(all, "engineering_courses", 0, None)
    case Place(q) => SetTaken(all, "engineering_courses", 0, Some(q))
  }

  /**
   * `moveEngr1()`: the schedule change above, with `AllCourses`'s first
   * engineering record's `quarter_taken` set to '' on a drop and to the
   * chosen quarter on a move.
   */
  function MoveEngr1(cat: Catalogue, st: Session): (r: Session)
    requires WellFormed(cat) && SessionOk(cat, st)
    ensures SessionOk(cat, r)
  {
    MoveEngr1ScheduleOk(cat, st.schedule);
    var d := Engr1Decision(st.schedule);
    SetTakenShape(cat, st.all, "engineering_courses", 0, if d.Place? then Some(d.q) else None);
    Session(Engr1Record(st.all, st.schedule), MoveEngr1Schedule(st.schedule))
  }

  /** `DropEngr1` touches only the key ENGR1. */
  lemma DropEngr1KeepsOthers(s: Schedule, q: Quarter, k: string)
    requires k != "ENGR1"
    ensures Lookup(DropEngr1(s).Get(q), k) == Lookup(s.Get(q), k)
  {
  }

  /** Every key other than ENGR1, in every quarter, and the whole spring quarter survive `moveEngr1`. */
  lemma MoveEngr1KeepsOthers(s: Schedule)
    ensures var r := MoveEngr1Schedule(s);
      && r.spring == s.spring
      && (forall q, k :: k != "ENGR1" ==> Lookup(r.Get(q), k) == Lookup(s.Get(q), k))
  {
    forall q, k | k != "ENGR1" ensures Lookup(MoveEngr1Schedule(s).Get(q), k) == Lookup(s.Get(q), k) {
      DropEngr1KeepsOthers(s, q, k);
    }
  }

  /**
   * When fall and winter both carry more than 17 units without ENGR1, and
   * ENGR1 is not in both, it ends up in neither and its record's
   * `quarter_taken` is ''.
   */
  lemma MoveEngr1Drops(all: Catalogue, s: Schedule)
    requires "engineering_courses" in all.branches && 0 < |all.branches["engineering_courses"]|
    requires ComputeTotalUnitsWithoutEngr1(s.fall) > Engr1Threshold
    requires ComputeTotalUnitsWithoutEngr1(s.winter) > Engr1Threshold
    requires !(Has(s.fall, "ENGR1") && Has(s.winter, "ENGR1"))
    ensures var r := MoveEngr1Schedule(s);
      && !Has(r.fall, "ENGR1") && !Has(r.winter, "ENGR1")
      && Engr1Record(all, s) == SetTaken(all, "engineering_courses", 0, None)
  {
  }

  /**
   * Otherwise, unless ENGR1 starts in both fall and winter, it ends up in
   * exactly one of fall and winter: fall when fall is no heavier than
   * winter, winter otherwise. Unless it was already there, it is written
   * there as the ENGR1 slot and its record's `quarter_taken` is set to that
   * quarter; a copy in spring stays where it is.
   */
  lemma MoveEngr1Places(all: Catalogue, s: Schedule)
    requires "engineering_courses" in all.branches && 0 < |all.branches["engineering_courses"]|
    requires ComputeTotalUnitsWithoutEngr1(s.fall) <= Engr1Threshold
          || ComputeTotalUnitsWithoutEngr1(s.winter) <= Engr1Threshold
    requires !(Has(s.fall, "ENGR1") && Has(s.winter, "ENGR1"))
    ensures var r := MoveEngr1Schedule(s);
      var lighterFall := ComputeTotalUnitsWithoutEngr1(s.fall) <= ComputeTotalUnitsWithoutEngr1(s.winter);
      && Has(r.fall, "ENGR1") == lighterFall
      && Has(r.winter, "ENGR1") == !lighterFall
      && var target := if lighterFall then Fall else Winter;
         (QuarterWith(s, "ENGR1") != Some(target) ==> Lookup(r.Get(target), "ENGR1") == Some(Engr1Slot))
         &&
         Engr1Record(all, s) == if QuarterWith(s, "ENGR1") == Some(target) then all
                                else SetTaken(all, "engineering_courses", 0, Some(target))
  {
  }

  // ---------------------------------------------------------------------------
  // fixUnits

  /** The largest load, without ENGR1, that `fixUnits` accepts in a quarter. */
  const UnitCap := 19

  /**
   * One of the loops of `fixUnits()`: while the quarter carries more than 19
   * units without ENGR1, delete its first filler; stop when none is left.
   */
  function TrimCores(p: Plan): (r: Plan)
    decreases NumberOfCoresInQuarter(p)
  {
    if ComputeTotalUnitsWithoutEngr1(p) > UnitCap then
      match GetACoreForQuarter(p)
      case None => p
      case Some(k) =>
        CoresDelete(p, k);
        TrimCores(Delete(p, k))
    else p
  }

  /**
   * After trimming, the quarter carries at most 19 units without ENGR1 or has
   * no filler left; only filler keys were deleted, nothing was added, and a
   * quarter within the cap is left alone.
   */
  lemma {:induction false} TrimCoresMeetsCap(p: Plan)
    ensures var r := TrimCores(p);
      && (ComputeTotalUnitsWithoutEngr1(r) <= UnitCap || NumberOfCoresInQuarter(r) == 0)
      && (forall k :: !ContainsCore(k) ==> Lookup(r, k) == Lookup(p, k))
      && (forall k :: Has(r, k) ==> Lookup(r, k) == Lookup(p, k))
      && (ComputeTotalUnitsWithoutEngr1(p) <= UnitCap ==> r == p)
    decreases NumberOfCoresInQuarter(p)
  {
    if ComputeTotalUnitsWithoutEngr1(p) > UnitCap {
      match GetACoreForQuarter(p)
      case None =>
      case Some(k) =>
        CoresDelete(p, k);
        TrimCoresMeetsCap(Delete(p, k));
    }
  }

  lemma {:induction false} TrimCoresOk(cat: Catalogue, p: Plan)
    requires PlanOk(cat, p)
    ensures PlanOk(cat, TrimCores(p))
    decreases NumberOfCoresInQuarter(p)
  {
    if ComputeTotalUnitsWithoutEngr1(p) > UnitCap {
      match GetACoreForQuarter(p)
      case None =>
      case Some(k) =>
        CoresDelete(p, k);
        DeleteOk(cat, p, k);
        TrimCoresOk(cat, Delete(p, k));
    }
  }

  /** `fixUnits()`: the three quarters trimmed independently. */
  function FixUnits(cat: Catalogue, s: Schedule): (r: Schedule)
    ensures ScheduleOk(cat, s) ==> ScheduleOk(cat, r)
  {
    assert ScheduleOk(cat, s) ==> PlanOk(cat, TrimCores(s.fall)) && PlanOk(cat, TrimCores(s.winter)) && PlanOk(cat, TrimCores(s.spring)) by {
      if ScheduleOk(cat, s) {
        TrimCoresOk(cat, s.fall);
        TrimCoresOk(cat, s.winter);
        TrimCoresOk(cat, s.spring);
      }
    }
    Schedule(TrimCores(s.fall), TrimCores(s.winter), TrimCores(s.spring))
  }

  /** After `fixUnits`, every quarter is within 19 units without ENGR1 or has no filler left. */
  lemma FixUnitsMeetsCap(cat: Catalogue, s: Schedule)
    ensures var r := FixUnits(cat, s);
      forall q :: (ComputeTotalUnitsWithoutEngr1(r.Get(q)) <= UnitCap || NumberOfCoresInQuarter(r.Get(q)) == 0)
              && (forall k :: !ContainsCore(k) ==> Lookup(r.Get(q), k) == Lookup(s.Get(q), k))
  {
    forall q
      ensures var r := FixUnits(cat, s);
        (ComputeTotalUnitsWithoutEngr1(r.Get(q)) <= UnitCap || NumberOfCoresInQuarter(r.Get(q)) == 0)
        && (forall k :: !ContainsCore(k) ==> Lookup(r.Get(q), k) == Lookup(s.Get(q), k))
    {
      assert FixUnits(cat, s).Get(q) == TrimCores(s.Get(q));
      TrimCoresMeetsCap(s.Get(q));
    }
  }

  // ---------------------------------------------------------------------------
  // The base case of removeCourse

  /** `removeCourse('BASECASE', -1)`: `fixCoen12`, then `moveEngr1`, then `fixUnits`. */
  function Finish(cat: Catalogue, st: Session): (r: Session)
    requires WellFormed(cat) && SessionOk(cat, st)
    ensures SessionOk(cat, r)
  {
    var s1 := FixCoen12(cat, st.schedule);
    var st2 := MoveEngr1(cat, Session(st.all, s1));
    Session(st2.all, FixUnits(cat, st2.schedule))
  }

  // ---------------------------------------------------------------------------
  // fixCI

  /** The slot `fixCI` writes for C&I<n>: the catalogue record itself. */
  function CISlot(cat: Catalogue, number: string): (s: Slot)
    requires WellFormed(cat) && GetCourseId(cat, "CI_courses", "C&I", number) >= 0
    ensures SlotResolves(cat, s)
  {
    var id := GetCourseId(cat, "CI_courses", "C&I", number);
    RecordSlotResolves(cat, "CI_courses", id);
    SlotOf(cat.branches["CI_courses"][id], cat.branches["CI_courses"][id].branch)
  }

  /** The first filler of `q1` and of `q2` give way to the keys C&I1 and C&I2 with the slots given. */
  function PlaceSlots(s: Schedule, q1: Quarter, q2: Quarter, ci1: Slot, ci2: Slot): (r: Schedule)
    requires q1 != q2
  {
    var s1 := s.Set(q1, Put(DeleteCore(s.Get(q1)), "C&I1", ci1));
    s1.Set(q2, Put(DeleteCore(s1.Get(q2)), "C&I2", ci2))
  }

  /** The schedule half of placing C&I: the first filler of `q1` and of `q2` give way to C&I1 and C&I2. */
  function PlaceCISchedule(cat: Catalogue, s: Schedule, q1: Quarter, q2: Quarter): (r: Schedule)
    requires WellFormed(cat) && q1 != q2
  {
    PlaceSlots(s, q1, q2, CISlot(cat, "1"), CISlot(cat, "2"))
  }

  lemma PlaceCIScheduleOk(cat: Catalogue, s: Schedule, q1: Quarter, q2: Quarter)
    requires WellFormed(cat) && q1 != q2 && ScheduleOk(cat, s)
    ensures ScheduleOk(cat, PlaceCISchedule(cat, s, q1, q2))
  {
    var p1 := s.Get(q1);
    DeleteOk(cat, p1, if GetACoreForQuarter(p1).Some? then GetACoreForQuarter(p1).value else "");
    PutOk(cat, DeleteCore(p1), "C&I1", CISlot(cat, "1"));
    var s1 := s.Set(q1, Put(DeleteCore(p1), "C&I1", CISlot(cat, "1")));
    SetOk(cat, s, q1, s1.Get(q1));
    var p2 := s1.Get(q2);
    DeleteOk(cat, p2, if GetACoreForQuarter(p2).Some? then GetACoreForQuarter(p2).value else "");
    PutOk(cat, DeleteCore(p2), "C&I2", CISlot(cat, "2"));
    SetOk(cat, s1, q2, Put(DeleteCore(p2), "C&I2", CISlot(cat, "2")));
  }

  /**
   * One branch of `fixCI`: the schedule change above, with the two records'
   * `quarter_taken` set to `q1` and `q2`.
   */
  function PlaceCI(cat: Catalogue, st: Session, q1: Quarter, q2: Quarter): (r: Session)
    requires WellFormed(cat) && SessionOk(cat, st) && q1 != q2
    ensures SessionOk(cat, r)
  {
    CIRecordsPresent(cat, st.all);
    var i1 := GetCourseId(cat, "CI_courses", "C&I", "1");
    var i2 := GetCourseId(cat, "CI_courses", "C&I", "2");
    PlaceCIScheduleOk(cat, st.schedule, q1, q2);
    SetTakenShape(cat, st.all, "CI_courses", i1, Some(q1));
    SetTakenShape(cat, SetTaken(st.all, "CI_courses", i1, Some(q1)), "CI_courses", i2, Some(q2));
    Session(SetTaken(SetTaken(st.all, "CI_courses", i1, Some(q1)), "CI_courses", i2, Some(q2)),
            PlaceSlots(st.schedule, q1, q2, CISlot(cat, "1"), CISlot(cat, "2")))
  }

  /**
   * `fixCI()` with the positions `i1`, `i2` of C&I1 and C&I2 in CI_courses
   * and the slots `ci1`, `ci2` written for them already looked up.
   */
  function FixCIWith(all: Catalogue, s: Schedule, i1: nat, i2: nat, ci1: Slot, ci2: Slot): (r: Session)
    requires "CI_courses" in all.branches && i1 < |all.branches["CI_courses"]| && i2 < |all.branches["CI_courses"]|
  {
    if all.branches["CI_courses"][i1].quarterTaken.Some? then Session(all, s)
    else if NumberOfCoresInQuarter(s.fall) > 0 && NumberOfCoresInQuarter(s.winter) > 0 then
      Session(SetTaken(SetTaken(all, "CI_courses", i1, Some(Fall)), "CI_courses", i2, Some(Winter)),
              PlaceSlots(s, Fall, Winter, ci1, ci2))
    else if NumberOfCoresInQuarter(s.winter) > 0 && NumberOfCoresInQuarter(s.spring) > 0 then
      Session(SetTaken(SetTaken(all, "CI_courses", i1, Some(Winter)), "CI_courses", i2, Some(Spring)),
              PlaceSlots(s, Winter, Spring, ci1, ci2))
    else Session(all, s)
  }

  /**
   * `fixCI()`: when C&I1 has no quarter, the pair C&I1, C&I2 replaces one
   * filler in fall and one in winter, or else one in winter and one in spring.
   */
  function FixCI(cat: Catalogue, st: Session): (r: Session)
    requires WellFormed(cat) && SessionOk(cat, st)
    ensures SessionOk(cat, r)
  {
    var i1 := GetCourseId(cat, "CI_courses", "C&I", "1");
    if st.all.branches["CI_courses"][i1].quarterTaken.Some? then st
    else if NumberOfCoresInQuarter(st.schedule.fall) > 0 && NumberOfCoresInQuarter(st.schedule.winter) > 0 then
      PlaceCI(cat, st, Fall, Winter)
    else if NumberOfCoresInQuarter(st.schedule.winter) > 0 && NumberOfCoresInQuarter(st.schedule.spring) > 0 then
      PlaceCI(cat, st, Winter, Spring)
    else st
  }

  /** The records of C&I1 and C&I2 are in every status copy of the catalogue. */
  lemma CIRecordsPresent(cat: Catalogue, all: Catalogue)
    requires WellFormed(cat) && SameShape(cat, all)
    ensures "CI_courses" in all.branches
    ensures 0 <= GetCourseId(cat, "CI_courses", "C&I", "1") < |all.branches["CI_courses"]|
    ensures 0 <= GetCourseId(cat, "CI_courses", "C&I", "2") < |all.branches["CI_courses"]|
  {
  }

  /** `FixCI` is `FixCIWith` at the catalogue's own positions and slots for C&I1 and C&I2. */
  lemma FixCIResolved(cat: Catalogue, st: Session)
    requires WellFormed(cat) && SessionOk(cat, st)
    ensures "CI_courses" in st.all.branches
    ensures var i1 := GetCourseId(cat, "CI_courses", "C&I", "1");
      var i2 := GetCourseId(cat, "CI_courses", "C&I", "2");
      && 0 <= i1 < |st.all.branches["CI_courses"]| && 0 <= i2 < |st.all.branches["CI_courses"]|
      && FixCI(cat, st) == FixCIWith(st.all, st.schedule, i1, i2, CISlot(cat, "1"), CISlot(cat, "2"))
  {
    CIRecordsPresent(cat, st.all);
  }

  /**
   * What placing C&I does to one quarter: it loses exactly one filler, its
   * first, and gains its C&I key; every other key stays.
   */
  lemma {:induction false} PlaceCIQuarter(p: Plan, k: string, v: Slot)
    requires Distinct(p) && NumberOfCoresInQuarter(p) > 0 && !ContainsCore(k)
    ensures var c := GetACoreForQuarter(p).value;
      var r := Put(DeleteCore(p), k, v);
      && Lookup(r, k) == Some(v) && !Has(r, c)
      && NumberOfCoresInQuarter(r) == NumberOfCoresInQuarter(p) - 1
      && (forall j :: j != c && j != k ==> Lookup(r, j) == Lookup(p, j))
  {
    var c := GetACoreForQuarter(p).value;
    CoresDelete(p, c);
    CoresPut(Delete(p, c), k, v);
  }

  /**
   * What `PlaceCI` does: each of the two quarters loses its first filler and
   * gains its half of the pair, the third quarter stays, and the two records'
   * `quarter_taken` name the two quarters.
   */
  lemma PlaceCIEffect(cat: Catalogue, st: Session, q1: Quarter, q2: Quarter)
    requires WellFormed(cat) && SessionOk(cat, st) && q1 != q2
    requires NumberOfCoresInQuarter(st.schedule.Get(q1)) > 0 && NumberOfCoresInQuarter(st.schedule.Get(q2)) > 0
    ensures (CIRecordsPresent(cat, st.all);
      var r := PlaceCI(cat, st, q1, q2);
      var i1 := GetCourseId(cat, "CI_courses", "C&I", "1");
      var i2 := GetCourseId(cat, "CI_courses", "C&I", "2");
      && r.schedule.Get(q1) == Put(DeleteCore(st.schedule.Get(q1)), "C&I1", CISlot(cat, "1"))
      && r.schedule.Get(q2) == Put(DeleteCore(st.schedule.Get(q2)), "C&I2", CISlot(cat, "2"))
      && (forall q :: q != q1 && q != q2 ==> r.schedule.Get(q) == st.schedule.Get(q))
      && r.all.branches["CI_courses"][i1].quarterTaken == Some(q1)
      && r.all.branches["CI_courses"][i2].quarterTaken == Some(q2))
  {
    PlaceSlotsEffect(st.schedule, q1, q2, CISlot(cat, "1"), CISlot(cat, "2"));
    CIRecordsDistinct(cat);
    CIRecordsPresent(cat, st.all);
  }

  /** The schedule half of `PlaceCI`: the two quarters change as described, the third stays. */
  lemma PlaceSlotsEffect(s: Schedule, q1: Quarter, q2: Quarter, ci1: Slot, ci2: Slot)
    requires q1 != q2
    ensures var r := PlaceSlots(s, q1, q2, ci1, ci2);
      && r.Get(q1) == Put(DeleteCore(s.Get(q1)), "C&I1", ci1)
      && r.Get(q2) == Put(DeleteCore(s.Get(q2)), "C&I2", ci2)
      && (forall q :: q != q1 && q != q2 ==> r.Get(q) == s.Get(q))
  {
  }

  /** C&I1 and C&I2 are two different records. */
  lemma CIRecordsDistinct(cat: Catalogue)
    requires WellFormed(cat)
    ensures GetCourseId(cat, "CI_courses", "C&I", "1") != GetCourseId(cat, "CI_courses", "C&I", "2")
  {
    var i1 := GetCourseId(cat, "CI_courses", "C&I", "1");
    assert cat.branches["CI_courses"][i1].number == "1";
  }

  /** C&I1 and C&I2 are not filler keys, so `PlaceCIQuarter` applies to both quarters. */
  lemma CIKeysAreNotCores()
    ensures !ContainsCore("C&I1") && !ContainsCore("C&I2")
  {
    assert "C&I1"[0..4][1] != "CORE"[1];
    assert "C&I2"[0..4][1] != "CORE"[1];
  }

  /** `fixCI` acts only when C&I1 has no quarter, and prefers fall and winter to winter and spring. */
  lemma FixCIChoosesQuarters(cat: Catalogue, st: Session)
    requires WellFormed(cat) && SessionOk(cat, st)
    ensures var i1 := GetCourseId(cat, "CI_courses", "C&I", "1");
      var f := NumberOfCoresInQuarter(st.schedule.fall) > 0;
      var w := NumberOfCoresInQuarter(st.schedule.winter) > 0;
      var s := NumberOfCoresInQuarter(st.schedule.spring) > 0;
      FixCI(cat, st) == if st.all.branches["CI_courses"][i1].quarterTaken.Some? then st
                        else if f && w then PlaceCI(cat, st, Fall, Winter)
                        else if w && s then PlaceCI(cat, st, Winter, Spring)
                        else st
  {
  }

  /**
   * `r` is the quarter `p` after one half of the C&I pair went in: `p`'s
   * first filler is gone, `k` holds `v`, and every other key is as in `p`.
   */
  ghost predicate FillerReplaced(p: Plan, r: Plan, k: string, v: Slot)
  {
    && GetACoreForQuarter(p).Some?
    && Lookup(r, k) == Some(v)
    && !Has(r, GetACoreForQuarter(p).value)
    && forall j :: j != k && j != GetACoreForQuarter(p).value ==> Lookup(r, j) == Lookup(p, j)
  }

  /** Writing a non-filler key after deleting the first filler replaces that filler. */
  lemma FillerReplacedByPut(p: Plan, k: string, v: Slot)
    requires NumberOfCoresInQuarter(p) > 0 && !ContainsCore(k)
    ensures FillerReplaced(p, Put(DeleteCore(p), k, v), k, v)
  {
    var c := GetACoreForQuarter(p).value;
    assert ContainsCore(c) && c != k;
  }

  /**
   * `r` is `st` after C&I was placed in `q1` and `q2`: C&I1 replaces the
   * first filler of `q1`, C&I2 the first filler of `q2`, the third quarter is
   * unchanged, and the two records name `q1` and `q2`.
   */
  ghost predicate CIPlaced(cat: Catalogue, st: Session, r: Session, q1: Quarter, q2: Quarter)
    requires WellFormed(cat)
  {
    var i1 := GetCourseId(cat, "CI_courses", "C&I", "1");
    var i2 := GetCourseId(cat, "CI_courses", "C&I", "2");
    && "CI_courses" in r.all.branches
    && 0 <= i1 < |r.all.branches["CI_courses"]| && 0 <= i2 < |r.all.branches["CI_courses"]|
    && FillerReplaced(st.schedule.Get(q1), r.schedule.Get(q1), "C&I1", CISlot(cat, "1"))
    && FillerReplaced(st.schedule.Get(q2), r.schedule.Get(q2), "C&I2", CISlot(cat, "2"))
    && (forall q :: q != q1 && q != q2 ==> r.schedule.Get(q) == st.schedule.Get(q))
    && r.all.branches["CI_courses"][i1].quarterTaken == Some(q1)
    && r.all.branches["CI_courses"][i2].quarterTaken == Some(q2)
  }

  /** `PlaceCI` in terms of keys: the pair is placed in `q1` and `q2` as `CIPlaced` says. */
  lemma PlaceCIReplaces(cat: Catalogue, st: Session, q1: Quarter, q2: Quarter)
    requires WellFormed(cat) && SessionOk(cat, st) && q1 != q2
    requires NumberOfCoresInQuarter(st.schedule.Get(q1)) > 0 && NumberOfCoresInQuarter(st.schedule.Get(q2)) > 0
    ensures CIPlaced(cat, st, PlaceCI(cat, st, q1, q2), q1, q2)
  {
    CIRecordsPresent(cat, st.all);
    var ci1, ci2 := CISlot(cat, "1"), CISlot(cat, "2");
    CIKeysAreNotCores();
    FillerReplacedByPut(st.schedule.Get(q1), "C&I1", ci1);
    FillerReplacedByPut(st.schedule.Get(q2), "C&I2", ci2);
    PlaceCIEffect(cat, st, q1, q2);
  }

  /**
   * What `fixCI` does. When C&I1 already has a quarter, or neither fall and
   * winter nor winter and spring both hold a filler, nothing changes.
   * Otherwise the pair is placed in fall and winter when both hold a
   * filler, else in winter and spring.
   */
  lemma FixCIPlaces(cat: Catalogue, st: Session)
    requires WellFormed(cat) && SessionOk(cat, st)
    ensures (CIRecordsPresent(cat, st.all);
      var i1 := GetCourseId(cat, "CI_courses", "C&I", "1");
      var s := st.schedule;
      var r := FixCI(cat, st);
      var free := st.all.branches["CI_courses"][i1].quarterTaken.None?;
      var f := NumberOfCoresInQuarter(s.fall) > 0;
      var w := NumberOfCoresInQuarter(s.winter) > 0;
      var sp := NumberOfCoresInQuarter(s.spring) > 0;
      && (!free || (!(f && w) && !(w && sp)) ==> r == st)
      && (free && f && w ==> CIPlaced(cat, st, r, Fall, Winter))
      && (free && !(f && w) && w && sp ==> CIPlaced(cat, st, r, Winter, Spring)))
  {
    CIRecordsPresent(cat, st.all);
    FixCIChoosesQuarters(cat, st);
    var i1 := GetCourseId(cat, "CI_courses", "C&I", "1");
    var s := st.schedule;
    if st.all.branches["CI_courses"][i1].quarterTaken.None? {
      if NumberOfCoresInQuarter(s.fall) > 0 && NumberOfCoresInQuarter(s.winter) > 0 {
        PlaceCIReplaces(cat, st, Fall, Winter);
      } else if NumberOfCoresInQuarter(s.winter) > 0 && NumberOfCoresInQuarter(s.spring) > 0 {
        PlaceCIReplaces(cat, st, Winter, Spring);
      }
    }
  }
}
