/**
 * The credit-event translators (js/compute_new_schedule.js, lines 632-698):
 * each turns a student input into the list of operations the modification
 * log stores for it. The only operation kind is `removeCourse(key)`.
 */
module CreditEvents {
  import opened Wrappers
  import opened Courses

  /** A stored call `{function: 'removeCourse', parameters: [key]}`. */
  datatype Operation = RemoveCourse(key: string)

  /** `getEquivalentReadinessExam()`: passing the calculus readiness exam removes MATH9. */
  function ReadinessExam(): (ops: seq<Operation>)
    ensures |ops| == 1 && ops[0].key == "MATH9"
  {
    [RemoveCourse("MATH9")]
  }

  /** `getEquivalentProgrammingExperience()`: prior programming experience removes COEN10. */
  function ProgrammingExperience(): (ops: seq<Operation>)
    ensures |ops| == 1 && ops[0].key == "COEN10"
  {
    [RemoveCourse("COEN10")]
  }

  /**
   * One removal per fulfilled course, in the order listed, keyed by the
   * course's department followed by its number (`course_info[1] + course_info[2]`).
   */
  function Removals(fulfillment: seq<CourseRef>): (ops: seq<Operation>)
    ensures |ops| == |fulfillment|
    ensures forall i :: 0 <= i < |ops| ==> ops[i].key == fulfillment[i].department + fulfillment[i].number
  {
    if fulfillment == [] then []
    else [RemoveCourse(fulfillment[0].department + fulfillment[0].number)] + Removals(fulfillment[1..])
  }

  /** Removals of two lists one after the other are the removals of the joined list. */
  lemma {:induction false} RemovalsAppend(a: seq<CourseRef>, b: seq<CourseRef>)
    ensures Removals(a + b) == Removals(a) + Removals(b)
  {
    if a == [] {
      assert a + b == b;
    } else {
      assert (a + b)[1..] == a[1..] + b;
      RemovalsAppend(a[1..], b);
    }
  }

  /** An entry of `window.TransferCredit`: the courses a transfer course fulfils. */
  datatype TransferCourse = TransferCourse(fulfillment: seq<CourseRef>)

  /** `getEquivalentTransferCredit({id})`: one removal per fulfilled course. */
  function TransferCredit(table: map<string, TransferCourse>, id: string): (ops: seq<Operation>)
    requires id in table
    ensures |ops| == |table[id].fulfillment|
    ensures forall i :: 0 <= i < |ops| ==> ops[i].key == table[id].fulfillment[i].department + table[id].fulfillment[i].number
  {
    Removals(table[id].fulfillment)
  }

  /** A score range of an AP test and the courses a score in it fulfils. */
  datatype ScoreRange = ScoreRange(minScore: int, maxScore: int, fulfillment: seq<CourseRef>)

  /**
   * An entry of `window.APTests`: a list of ranges (`multiple_fulfillments`)
   * or a single range given by the test's own `min_score`, `max_score` and
   * `fulfillment`.
   */
  datatype APTest = APTest(multiple: Option<seq<ScoreRange>>, single: ScoreRange)

  predicate InRange(r: ScoreRange, score: int)
  {
    r.minScore <= score <= r.maxScore
  }

  /** The first range, in list order, that contains the score. */
  function FirstRange(rs: seq<ScoreRange>, score: int): (r: Option<nat>)
    ensures r.Some? ==> r.value < |rs| && InRange(rs[r.value], score)
                        && forall j :: 0 <= j < r.value ==> !InRange(rs[j], score)
    ensures r.None? <==> forall j :: 0 <= j < |rs| ==> !InRange(rs[j], score)
  {
    if rs == [] then None
    else if InRange(rs[0], score) then Some(0)
    else
      var r := FirstRange(rs[1..], score);
      assert forall j :: 1 <= j < |rs| ==> rs[j] == rs[1..][j - 1];
      if r.None? then None else Some(r.value + 1)
  }

  /**
   * `getEquivalentAPTest({id, score})`: with a list of ranges, the removals
   * of the first range holding the score, or none when no range does (the
   * single range is then not consulted); otherwise the removals of the
   * single range if it holds the score, or none.
   */
  function APTestCredit(tests: map<string, APTest>, id: string, score: int): (ops: seq<Operation>)
    requires id in tests
    ensures tests[id].multiple.Some? ==> var rs := tests[id].multiple.value;
      (ops == [] || exists i :: 0 <= i < |rs| && InRange(rs[i], score) && ops == Removals(rs[i].fulfillment))
      && (forall i :: 0 <= i < |rs| && InRange(rs[i], score) && (forall j :: 0 <= j < i ==> !InRange(rs[j], score))
             ==> ops == Removals(rs[i].fulfillment))
    ensures tests[id].multiple.None? ==>
      ops == if InRange(tests[id].single, score) then Removals(tests[id].single.fulfillment) else []
  {
    var test := tests[id];
    match test.multiple
    case Some(rs) =>
      (match FirstRange(rs, score)
       case Some(i) => Removals(rs[i].fulfillment)
       case None => [])
    case None =>
      if InRange(test.single, score) then Removals(test.single.fulfillment) else []
  }
}
