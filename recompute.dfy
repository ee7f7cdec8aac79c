/**
 * The modification log and the recompute driver
 * (js/compute_new_schedule.js, lines 710-722 and 769-788): the log keeps the
 * operations of every active credit event under the event's id, and a
 * recomputation replays them, in log order, on fresh copies of the base
 * plan and the catalogue, then places C&I.
 */
module Recompute {
  import opened Wrappers
  import opened Assoc
  import opened Courses
  import opened Schedules
  import opened Fixups
  import opened Derivation
  import opened CreditEvents

  /** `window.ModLog`: event id to the operations it stands for, in insertion order. */
  type ModLog = seq<Entry<seq<Operation>>>

  /** `applyMods(id, mods)`: store the event's operations; an empty id is ignored. */
  function ApplyMods(log: ModLog, id: string, mods: seq<Operation>): (r: ModLog)
    ensures id == "" ==> r == log
    ensures id != "" ==> Lookup(r, id) == Some(mods)
    ensures forall j :: j != id ==> Lookup(r, j) == Lookup(log, j)
    ensures Distinct(log) ==> Distinct(r)
    ensures id != "" && !Has(log, id) ==> r == log + [Entry(id, mods)]
  {
    if id == "" then log else Put(log, id, mods)
  }

  /** `removeMods(id)`: forget the event; an empty id is ignored. */
  function RemoveMods(log: ModLog, id: string): (r: ModLog)
    ensures id == "" ==> r == log
    ensures id != "" ==> !Has(r, id)
    ensures forall j :: j != id ==> Lookup(r, j) == Lookup(log, j)
    ensures Distinct(log) ==> Distinct(r)
  {
    if id == "" then log
    else
      assert Distinct(log) ==> Distinct(Delete(log, id)) by {
        if Distinct(log) {
          DeleteDistinct(log, id);
        }
      }
      Delete(log, id)
  }

  /** Retracting an event just submitted gives back the log as it was before. */
  lemma RetractRestores(log: ModLog, id: string, mods: seq<Operation>)
    requires !Has(log, id)
    ensures RemoveMods(ApplyMods(log, id, mods), id) == log
  {
    if id != "" {
      DeletePutFresh(log, id, mods);
    }
  }

  /** The operations of the log in replay order: `for (id in ModLog) for (course in ModLog[id])`. */
  function Flatten(log: ModLog): (ops: seq<Operation>)
    decreases |log|
  {
    if log == [] then [] else log[0].val + Flatten(log[1..])
  }

  /** A newly submitted event's operations are replayed after all the others. */
  lemma {:induction false} FlattenAppend(log: ModLog, e: Entry<seq<Operation>>)
    ensures Flatten(log + [e]) == Flatten(log) + e.val
  {
    if log == [] {
      assert [e][1..] == [];
    } else {
      assert (log + [e])[1..] == log[1..] + [e];
      FlattenAppend(log[1..], e);
    }
  }

  /**
   * Executing the operations one by one; `None` when one of them throws, which
   * aborts the whole recomputation.
   */
  function Replay(cat: Catalogue, st: Session, ops: seq<Operation>): (r: Option<Session>)
    requires WellFormed(cat) && SessionOk(cat, st)
    ensures r.Some? ==> SessionOk(cat, r.value)
    decreases |ops|
  {
    if ops == [] then Some(st)
    else
      var r := Remove(cat, st, ops[0].key);
      if r.None? then None else Replay(cat, r.value, ops[1..])
  }

  /** Replaying two lists is replaying the first, then the second from where it left off. */
  lemma {:induction false} ReplayAppend(cat: Catalogue, st: Session, a: seq<Operation>, b: seq<Operation>)
    requires WellFormed(cat) && SessionOk(cat, st)
    ensures Replay(cat, st, a + b) == match Replay(cat, st, a)
                                      case None => None
                                      case Some(st1) => Replay(cat, st1, b)
    decreases |a|
  {
    if a == [] {
      assert a + b == b;
    } else {
      assert (a + b)[0] == a[0];
      assert (a + b)[1..] == a[1..] + b;
      var r := Remove(cat, st, a[0].key);
      if r.Some? {
        ReplayAppend(cat, r.value, a[1..], b);
      }
    }
  }

  /** Replaying one more operation is removing its key from where the replay left off. */
  lemma ReplayStep(cat: Catalogue, st: Session, ops: seq<Operation>, o: Operation)
    requires WellFormed(cat) && SessionOk(cat, st) && Replay(cat, st, ops).Some?
    ensures Replay(cat, st, ops + [o]) == Remove(cat, Replay(cat, st, ops).value, o.key)
  {
    ReplayAppend(cat, st, ops, [o]);
    ReplaySingle(cat, Replay(cat, st, ops).value, o);
  }

  lemma ReplaySingle(cat: Catalogue, st: Session, o: Operation)
    requires WellFormed(cat) && SessionOk(cat, st)
    ensures Replay(cat, st, [o]) == Remove(cat, st, o.key)
  {
    assert [o][1..] == [];
  }

  /** Once a prefix of the operations throws, so does the whole replay. */
  lemma ReplayPrefixAborts(cat: Catalogue, st: Session, a: seq<Operation>, b: seq<Operation>)
    requires WellFormed(cat) && SessionOk(cat, st) && Replay(cat, st, a).None?
    ensures Replay(cat, st, a + b).None?
  {
    ReplayAppend(cat, st, a, b);
  }

  /** Flattening a concatenated log is concatenating the flattened halves. */
  lemma {:induction false} FlattenConcat(a: ModLog, b: ModLog)
    ensures Flatten(a + b) == Flatten(a) + Flatten(b)
    decreases |a|
  {
    if a == [] {
      assert a + b == b;
    } else {
      assert (a + b)[1..] == a[1..] + b;
      FlattenConcat(a[1..], b);
    }
  }

  /** The replay order cut after operation `j` of event `i`. */
  lemma {:induction false} FlattenSplit(log: ModLog, i: nat, j: nat)
    requires i < |log| && j < |log[i].val|
    ensures Flatten(log) == (Flatten(log[..i]) + log[i].val[..j + 1]) + (log[i].val[j + 1..] + Flatten(log[i + 1..]))
  {
    var ops := log[i].val;
    assert log == log[..i] + ([log[i]] + log[i + 1..]);
    FlattenConcat(log[..i], [log[i]] + log[i + 1..]);
    FlattenConcat([log[i]], log[i + 1..]);
    assert [log[i]][1..] == [];
    assert ops == ops[..j + 1] + ops[j + 1..];
  }

  /** The empty prefix of `b` adds nothing after `a`. */
  lemma EmptyPrefix<T>(a: seq<T>, b: seq<T>)
    ensures a + b[..0] == a
  {
  }

  /** Extending the replayed prefix of `b` after `a` by one operation. */
  lemma {:induction false} PrefixStep<T>(a: seq<T>, b: seq<T>, j: nat)
    requires j < |b|
    ensures a + b[..j + 1] == a + b[..j] + [b[j]]
    ensures (a + b[..j + 1]) + b[j + 1..] == a + b
  {
    assert b[..j + 1] == b[..j] + [b[j]];
    assert b == b[..j + 1] + b[j + 1..];
  }

  /** The replay order cut after event `i`. */
  lemma {:induction false} FlattenCut(log: ModLog, i: nat)
    requires i < |log|
    ensures Flatten(log[..i + 1]) == Flatten(log[..i]) + log[i].val
    ensures Flatten(log) == Flatten(log[..i + 1]) + Flatten(log[i + 1..])
  {
    assert log[..i + 1] == log[..i] + [log[i]];
    FlattenAppend(log[..i], log[i]);
    assert log == log[..i + 1] + log[i + 1..];
    FlattenConcat(log[..i + 1], log[i + 1..]);
  }

  /** Once an operation of the log throws, so does the whole replay. */
  lemma ReplayAborts(cat: Catalogue, st: Session, log: ModLog, i: nat, j: nat)
    requires WellFormed(cat) && SessionOk(cat, st)
    requires i < |log| && j < |log[i].val|
    requires Replay(cat, st, Flatten(log[..i]) + log[i].val[..j + 1]).None?
    ensures Replay(cat, st, Flatten(log)).None?
  {
    FlattenSplit(log, i, j);
    ReplayPrefixAborts(cat, st, Flatten(log[..i]) + log[i].val[..j + 1], log[i].val[j + 1..] + Flatten(log[i + 1..]));
  }

  /**
   * `st` is where a replay of `ops` from `start` stopped: the state an
   * initial run of the operations left, the next operation being one that
   * throws.
   */
  ghost predicate StoppedAt(cat: Catalogue, start: Session, ops: seq<Operation>, st: Session)
    requires WellFormed(cat) && SessionOk(cat, start)
  {
    exists n :: 0 <= n < |ops| && Replay(cat, start, ops[..n]) == Some(st) && Replay(cat, start, ops[..n + 1]).None?
  }

  /** A replay that stopped within `a` stopped at the same state within `a + b`. */
  lemma StoppedAtExtends(cat: Catalogue, start: Session, a: seq<Operation>, b: seq<Operation>, st: Session)
    requires WellFormed(cat) && SessionOk(cat, start) && StoppedAt(cat, start, a, st)
    ensures StoppedAt(cat, start, a + b, st)
  {
    var n :| 0 <= n < |a| && Replay(cat, start, a[..n]) == Some(st) && Replay(cat, start, a[..n + 1]).None?;
    assert (a + b)[..n] == a[..n] && (a + b)[..n + 1] == a[..n + 1];
  }

  /** One more operation of `ops` after `done`: the replay goes on with its removal. */
  lemma ReplayNext(cat: Catalogue, start: Session, done: seq<Operation>, ops: seq<Operation>, j: nat, st: Session)
    requires WellFormed(cat) && SessionOk(cat, start) && j < |ops|
    requires Replay(cat, start, done + ops[..j]) == Some(st)
    ensures SessionOk(cat, st) && Replay(cat, start, done + ops[..j + 1]) == Remove(cat, st, ops[j].key)
  {
    PrefixStep(done, ops, j);
    ReplayStep(cat, start, done + ops[..j], ops[j]);
  }

  /** An operation of `ops` that throws after `done` stops the replay of `done + ops` in front of it. */
  lemma StoppedInside(cat: Catalogue, start: Session, done: seq<Operation>, ops: seq<Operation>, j: nat, st: Session)
    requires WellFormed(cat) && SessionOk(cat, start) && j < |ops|
    requires Replay(cat, start, done + ops[..j]) == Some(st) && Replay(cat, start, done + ops[..j + 1]).None?
    ensures Replay(cat, start, done + ops).None? && StoppedAt(cat, start, done + ops, st)
  {
    PrefixStep(done, ops, j);
    ReplayPrefixAborts(cat, start, done + ops[..j + 1], ops[j + 1..]);
    assert (done + ops)[..|done| + j] == done + ops[..j];
    assert (done + ops)[..|done| + j + 1] == done + ops[..j + 1];
  }

  /**
   * `computeNewSchedule()`: `WorkingSchedule` a copy of the base plan and
   * `AllCourses` a copy of the catalogue, the log replayed, then `fixCI`;
   * the result is the working schedule and its course status.
   */
  function ComputeNewSchedule(cat: Catalogue, basePlan: Schedule, log: ModLog): (r: Option<Session>)
    requires WellFormed(cat) && ScheduleOk(cat, basePlan)
    ensures r.Some? ==> SessionOk(cat, r.value)
  {
    match Replay(cat, Session(cat, basePlan), Flatten(log))
    case None => None
    case Some(st) => Some(FixCI(cat, st))
  }

  /** With no active event the result is the base plan with C&I placed. */
  lemma ComputeEmptyLog(cat: Catalogue, basePlan: Schedule)
    requires WellFormed(cat) && ScheduleOk(cat, basePlan)
    ensures ComputeNewSchedule(cat, basePlan, []) == Some(FixCI(cat, Session(cat, basePlan)))
  {
  }

  /**
   * Submitting a new event replays its operations after those of the events
   * already in the log, starting from the state they leave.
   */
  lemma ComputeAddedEvent(cat: Catalogue, basePlan: Schedule, log: ModLog, id: string, mods: seq<Operation>)
    requires WellFormed(cat) && ScheduleOk(cat, basePlan)
    requires id != "" && !Has(log, id)
    ensures ComputeNewSchedule(cat, basePlan, ApplyMods(log, id, mods))
            == match Replay(cat, Session(cat, basePlan), Flatten(log))
               case None => None
               case Some(st) => (match Replay(cat, st, mods)
                                 case None => None
                                 case Some(st1) => Some(FixCI(cat, st1)))
  {
    FlattenAppend(log, Entry(id, mods));
    ReplayAppend(cat, Session(cat, basePlan), Flatten(log), mods);
  }

  /**
   * Retracting an event just submitted and recomputing gives exactly the
   * schedule computed before it was submitted, since every recomputation
   * starts again from the base plan.
   */
  lemma RetractionRestoresSchedule(cat: Catalogue, basePlan: Schedule, log: ModLog, id: string, mods: seq<Operation>)
    requires WellFormed(cat) && ScheduleOk(cat, basePlan) && !Has(log, id)
    ensures ComputeNewSchedule(cat, basePlan, RemoveMods(ApplyMods(log, id, mods), id)) == ComputeNewSchedule(cat, basePlan, log)
  {
    RetractRestores(log, id, mods);
  }
}
