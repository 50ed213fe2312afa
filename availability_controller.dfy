/** An advisor's weekly availability: reading it back ordered by day, and
    replacing it wholesale (delete every old slot, then insert the new ones,
    with nothing undone if the insert fails). */
module AvailabilityController {
  import opened Base
  import opened Store

  /** `.eq('advisor_id', advisorId)` on work_schedules, in storage order. */
  function OwnedBy(rows: seq<ScheduleRow>, advisorId: Id): (r: seq<ScheduleRow>)
    ensures forall i :: 0 <= i < |r| ==> r[i].advisorId == advisorId
    ensures forall x :: multiset(r)[x] == if x.advisorId == advisorId then multiset(rows)[x] else 0
  {
    if |rows| == 0 then []
    else
      assert rows == [rows[0]] + rows[1..];
      var rest := OwnedBy(rows[1..], advisorId);
      if rows[0].advisorId == advisorId then [rows[0]] + rest else rest
  }

  /** `.delete().eq('advisor_id', advisorId)` on work_schedules: the rows
      that remain. */
  function Without(rows: seq<ScheduleRow>, advisorId: Id): (r: seq<ScheduleRow>)
    ensures forall i :: 0 <= i < |r| ==> r[i].advisorId != advisorId
    ensures forall x :: multiset(r)[x] == if x.advisorId != advisorId then multiset(rows)[x] else 0
  {
    if |rows| == 0 then []
    else
      assert rows == [rows[0]] + rows[1..];
      var rest := Without(rows[1..], advisorId);
      if rows[0].advisorId != advisorId then [rows[0]] + rest else rest
  }

  predicate SortedByDay(rows: seq<ScheduleRow>) {
    forall i, j :: 0 <= i < j < |rows| ==> rows[i].slot.dayOfWeek <= rows[j].slot.dayOfWeek
  }

  /** Places a row into a day-ordered sequence, after the rows of the same
      day. */
  function InsertByDay(x: ScheduleRow, rows: seq<ScheduleRow>): (r: seq<ScheduleRow>)
    requires SortedByDay(rows)
    ensures SortedByDay(r)
    ensures multiset(r) == multiset(rows) + multiset{x}
    ensures |r| == |rows| + 1
    ensures forall i :: 0 <= i < |r| ==> r[i] == x || r[i] in rows
  {
    if |rows| == 0 then [x]
    else if x.slot.dayOfWeek < rows[0].slot.dayOfWeek then [x] + rows
    else
      var rest := InsertByDay(x, rows[1..]);
      HeadBelowTail(rows);
      PrependKeepsSorted(rows[0], rest);
      assert rows == [rows[0]] + rows[1..];
      [rows[0]] + rest
  }

  /** In a day-ordered sequence no later row is on an earlier day than the
      first. */
  lemma {:induction false} HeadBelowTail(rows: seq<ScheduleRow>)
    requires SortedByDay(rows) && |rows| > 0
    ensures forall y :: y in rows[1..] ==> rows[0].slot.dayOfWeek <= y.slot.dayOfWeek
  {
    forall y | y in rows[1..]
      ensures rows[0].slot.dayOfWeek <= y.slot.dayOfWeek
    {
      var j :| 0 <= j < |rows[1..]| && rows[1..][j] == y;
      assert rows[j + 1] == y;
    }
  }

  /** A row on a day no later than any of a day-ordered sequence can go in
      front of it. */
  lemma {:induction false} PrependKeepsSorted(h: ScheduleRow, rest: seq<ScheduleRow>)
    requires SortedByDay(rest)
    requires forall i :: 0 <= i < |rest| ==> h.slot.dayOfWeek <= rest[i].slot.dayOfWeek
    ensures SortedByDay([h] + rest)
  {
    var s := [h] + rest;
    forall i, j | 0 <= i < j < |s|
      ensures s[i].slot.dayOfWeek <= s[j].slot.dayOfWeek
    {
      assert s[j] == rest[j - 1];
      if i > 0 {
        assert s[i] == rest[i - 1];
      }
    }
  }

  /** `.order('day_of_week', { ascending: true })`. */
  function SortByDay(rows: seq<ScheduleRow>): (r: seq<ScheduleRow>)
    ensures SortedByDay(r)
    ensures multiset(r) == multiset(rows)
  {
    if |rows| == 0 then []
    else
      assert rows == [rows[0]] + rows[1..];
      InsertByDay(rows[0], SortByDay(rows[1..]))
  }

  /** getWorkSchedule: exactly the advisor's stored slots, each as often as
      stored, ordered by day. */
  function GetWorkSchedule(t: Tables, advisorId: Id): (r: seq<ScheduleRow>)
    ensures SortedByDay(r)
    ensures forall x :: multiset(r)[x] == if x.advisorId == advisorId then multiset(t.workSchedules)[x] else 0
  {
    SortByDay(OwnedBy(t.workSchedules, advisorId))
  }

  /** `schedule.map(slot => ({ advisor_id, ...slot }))` inserted with ids
      handed out from `first` on. */
  function NewRows(advisorId: Id, schedule: seq<Slot>, first: Id): (r: seq<ScheduleRow>)
    ensures |r| == |schedule|
    ensures forall i :: 0 <= i < |r| ==> r[i] == ScheduleRow(first + i, advisorId, schedule[i])
  {
    seq(|schedule|, i requires 0 <= i < |schedule| => ScheduleRow(first + i, advisorId, schedule[i]))
  }

  /** setWorkSchedule. `schedule` is None when the body's schedule is not an
      array; `deleteFails` and `insertFails` stand for store errors on the
      two writes. */
  function SetWorkScheduleStep(t: Tables, email: string, schedule: Option<seq<Slot>>,
                               deleteFails: bool, insertFails: bool): (r: Reply)
    ensures schedule.None? ==> r == Reply(BadRequest(ScheduleRequired), t)
    ensures schedule.Some? && CallerAdvisor(t, email) == Threw ==> r == Reply(ServerError, t)
    ensures schedule.Some? && CallerAdvisor(t, email) == ClientCaller ==> r == Reply(Forbidden, t)
    ensures schedule.Some? && CallerAdvisor(t, email).AdvisorRow? && deleteFails ==> r == Reply(ServerError, t)
    ensures schedule.Some? && CallerAdvisor(t, email).AdvisorRow? && !deleteFails && insertFails ==>
      r == Reply(ServerError, t.(workSchedules := Without(t.workSchedules, CallerAdvisor(t, email).id)))
    ensures r.status == Created <==>
      schedule.Some? && CallerAdvisor(t, email).AdvisorRow? && !deleteFails && !insertFails
    ensures r.status == Created ==>
      var a := CallerAdvisor(t, email).id;
      r.db == t.(workSchedules := Without(t.workSchedules, a) + NewRows(a, schedule.value, t.nextId),
                 nextId := t.nextId + |schedule.value|)
  {
    if schedule.None? then Reply(BadRequest(ScheduleRequired), t)
    else
      match CallerAdvisor(t, email)
      case Threw => Reply(ServerError, t)
      case ClientCaller => Reply(Forbidden, t)
      case AdvisorRow(a) =>
        if deleteFails then Reply(ServerError, t)
        else
          var cleared := t.(workSchedules := Without(t.workSchedules, a));
          if insertFails then Reply(ServerError, cleared)
          else
            Reply(Created, cleared.(workSchedules := cleared.workSchedules + NewRows(a, schedule.value, t.nextId),
                                    nextId := t.nextId + |schedule.value|))
  }

  /** The setWorkSchedule handler on the shared database: the delete and the
      insert are two separate writes. */
  method SetWorkSchedule(db: Database, email: string, schedule: Option<seq<Slot>>, deleteFails: bool, insertFails: bool)
    returns (st: Status)
    modifies db
    ensures Reply(st, db.Snapshot()) == SetWorkScheduleStep(old(db.Snapshot()), email, schedule, deleteFails, insertFails)
  {
    if schedule.None? {
      return BadRequest(ScheduleRequired);
    }
    var caller := CallerAdvisor(db.Snapshot(), email);
    if caller == Threw {
      return ServerError;
    }
    if caller == ClientCaller {
      return Forbidden;
    }
    if deleteFails {
      return ServerError;
    }
    db.workSchedules := Without(db.workSchedules, caller.id);
    if insertFails {
      return ServerError;
    }
    db.workSchedules := db.workSchedules + NewRows(caller.id, schedule.value, db.nextId);
    db.nextId := db.nextId + |schedule.value|;
    st := Created;
  }

  lemma {:induction false} OwnedByAppend(x: seq<ScheduleRow>, y: seq<ScheduleRow>, a: Id)
    ensures OwnedBy(x + y, a) == OwnedBy(x, a) + OwnedBy(y, a)
    decreases |x|
  {
    if |x| > 0 {
      assert (x + y)[0] == x[0] && (x + y)[1..] == x[1..] + y;
      OwnedByAppend(x[1..], y, a);
      if x[0].advisorId == a {
        assert [x[0]] + (OwnedBy(x[1..], a) + OwnedBy(y, a)) == ([x[0]] + OwnedBy(x[1..], a)) + OwnedBy(y, a);
      }
    } else {
      assert x + y == y;
    }
  }

  lemma {:induction false} OwnedByWithout(rows: seq<ScheduleRow>, a: Id, b: Id)
    ensures OwnedBy(Without(rows, a), b) == if a == b then [] else OwnedBy(rows, b)
    decreases |rows|
  {
    if |rows| > 0 {
      OwnedByWithout(rows[1..], a, b);
      if rows[0].advisorId != a {
        assert Without(rows, a) == [rows[0]] + Without(rows[1..], a);
        assert ([rows[0]] + Without(rows[1..], a))[1..] == Without(rows[1..], a);
      }
    }
  }

  lemma {:induction false} OwnedByUniform(rows: seq<ScheduleRow>, a: Id, b: Id)
    requires forall i :: 0 <= i < |rows| ==> rows[i].advisorId == a
    ensures OwnedBy(rows, b) == if a == b then rows else []
    decreases |rows|
  {
    if |rows| > 0 {
      OwnedByUniform(rows[1..], a, b);
      assert rows == [rows[0]] + rows[1..];
    }
  }

  /** After a 201 the caller's schedule reads back as exactly the submitted
      slots, and every other advisor's schedule reads back as before. */
  lemma {:induction false} SetThenGet(t: Tables, email: string, schedule: seq<Slot>, b: Id)
    requires SetWorkScheduleStep(t, email, Some(schedule), false, false).status == Created
    ensures var a := CallerAdvisor(t, email).id;
      var t' := SetWorkScheduleStep(t, email, Some(schedule), false, false).db;
      && multiset(GetWorkSchedule(t', a)) == multiset(NewRows(a, schedule, t.nextId))
      && (b != a ==> GetWorkSchedule(t', b) == GetWorkSchedule(t, b))
  {
    var a := CallerAdvisor(t, email).id;
    var t' := SetWorkScheduleStep(t, email, Some(schedule), false, false).db;
    var inserted := NewRows(a, schedule, t.nextId);
    OwnedByAppend(Without(t.workSchedules, a), inserted, a);
    OwnedByWithout(t.workSchedules, a, a);
    OwnedByUniform(inserted, a, a);
    assert OwnedBy(t'.workSchedules, a) == inserted;
    if b != a {
      OwnedByAppend(Without(t.workSchedules, a), inserted, b);
      OwnedByWithout(t.workSchedules, a, b);
      OwnedByUniform(inserted, a, b);
      assert OwnedBy(t'.workSchedules, b) == OwnedBy(t.workSchedules, b);
    }
  }

  /** A failed insert after a successful delete leaves the caller with no
      schedule at all: the old slots are gone and the new ones never
      arrived. */
  lemma {:induction false} FailedInsertClearsSchedule(t: Tables, email: string, schedule: seq<Slot>)
    requires CallerAdvisor(t, email).AdvisorRow?
    ensures var r := SetWorkScheduleStep(t, email, Some(schedule), false, true);
      r.status == ServerError && GetWorkSchedule(r.db, CallerAdvisor(t, email).id) == []
  {
    var a := CallerAdvisor(t, email).id;
    var r := SetWorkScheduleStep(t, email, Some(schedule), false, true);
    OwnedByWithout(t.workSchedules, a, a);
    assert OwnedBy(r.db.workSchedules, a) == [];
  }
}
