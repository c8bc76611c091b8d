/**
 * The admin console: the lazy wipe of a previous day's queue when the console
 * opens, the projection of the queue onto the active patients, registration
 * of a patient (employee ID check, roster check, number issuing, ticket
 * write) and "Call Next Patient".
 */
module Admin {
  import opened Wrappers
  import opened JsStrings
  import opened Seqs
  import opened Tickets
  import opened Store
  import QueueNumber
  import DailyReset

  const MsPerDay: nat := 86_400_000

  /**
   * The local calendar day holding time `t` (milliseconds), for a clock
   * `utcOffset` milliseconds ahead of UTC: two times compare equal under
   * `setHours(0, 0, 0, 0)` exactly when their days are equal.
   */
  function DayOf(t: int, utcOffset: int): int {
    (t + utcOffset) / MsPerDay
  }

  /** The stored reset time, or time 0 (`new Date(0)`) when it is missing or not a Timestamp. */
  function LastResetTime(m: Meta): int {
    match m.lastResetDate
    case None => 0
    case Some(t) => t
  }

  /** Whether a meta document exists and was last reset on a day other than today. */
  predicate ResetDue(meta: Option<Meta>, now: int, utcOffset: int) {
    meta.Some? && DayOf(now, utcOffset) != DayOf(LastResetTime(meta.value), utcOffset)
  }

  /** `empID.match(/^\d{6}$/)`: exactly six decimal digits. */
  predicate IsEmployeeId(s: string) {
    |s| == 6 && AllDigits(s)
  }

  /**
   * The number a registration at time `now` is given, with the meta document
   * written back. A missing meta document, or one last reset on another day,
   * gives S5-01 and a fresh meta document; otherwise the number after the
   * stored one, with the other fields kept.
   */
  function IssueTicket(meta: Option<Meta>, now: int, utcOffset: int): (r: (string, Meta))
    ensures r.1.queueNumber == Some(r.0)
    ensures !ResetDue(Some(r.1), now, utcOffset)
    ensures QueueNumber.Prefix <= r.0
  {
    if meta.None? || ResetDue(meta, now, utcOffset) then
      (QueueNumber.First, InitialMeta(now))
    else
      var n := QueueNumber.Next(meta.value.queueNumber);
      (n, meta.value.(queueNumber := Some(n)))
  }

  /** The numbers given to registrations at `times`, in order, starting from `meta`. */
  function IssueRun(meta: Option<Meta>, times: seq<int>, utcOffset: int): seq<string>
    decreases |times|
  {
    if times == [] then []
    else
      var r := IssueTicket(meta, times[0], utcOffset);
      [r.0] + IssueRun(Some(r.1), times[1..], utcOffset)
  }

  /** The first registration of a day (no meta document, or a stale one) is given S5-01. */
  lemma FirstOfDay(meta: Option<Meta>, now: int, utcOffset: int)
    requires meta.None? || ResetDue(meta, now, utcOffset)
    ensures IssueTicket(meta, now, utcOffset).0 == QueueNumber.First
    ensures IssueTicket(meta, now, utcOffset).1 == InitialMeta(now)
  {
  }

  /** Later the same day the stored number is parsed and incremented, and every other meta field is kept. */
  lemma IssueKeepsFields(m: Meta, now: int, utcOffset: int)
    requires !ResetDue(Some(m), now, utcOffset)
    ensures IssueTicket(Some(m), now, utcOffset).0 == QueueNumber.Next(m.queueNumber)
    ensures IssueTicket(Some(m), now, utcOffset).1.lastResetDate == m.lastResetDate
    ensures IssueTicket(Some(m), now, utcOffset).1.others == m.others
  {
  }

  /** Later the same day, the number after S5-NN is S5-(NN + 1), and the stored reset time is kept. */
  lemma {:induction false} IssueSameDay(m: Meta, k: nat, now: int, utcOffset: int)
    requires m.queueNumber == Some(QueueNumber.Numbered(k))
    requires DayOf(now, utcOffset) == DayOf(LastResetTime(m), utcOffset)
    ensures IssueTicket(Some(m), now, utcOffset).0 == QueueNumber.Numbered(k + 1)
    ensures LastResetTime(IssueTicket(Some(m), now, utcOffset).1) == LastResetTime(m)
  {
    QueueNumber.NextAfterNumbered(k);
  }

  /** The `n` numbers from S5-`k` on: S5-`k`, S5-(`k` + 1), ... */
  function NumbersFrom(k: nat, n: nat): seq<string> {
    seq(n, i requires 0 <= i < n => QueueNumber.Numbered(k + i))
  }

  lemma NumbersFromCons(k: nat, n: nat)
    requires n > 0
    ensures NumbersFrom(k, n) == [QueueNumber.Numbered(k)] + NumbersFrom(k + 1, n - 1)
  {
    var a := NumbersFrom(k, n);
    var tail := NumbersFrom(k + 1, n - 1);
    var b := [QueueNumber.Numbered(k)] + tail;
    forall i | 0 <= i < n ensures a[i] == b[i] {
      if i > 0 {
        assert b[i] == tail[i - 1];
        assert k + 1 + (i - 1) == k + i;
      }
    }
  }

  /** No number occurs twice. */
  predicate AllDifferent(s: seq<string>) {
    forall i, j | 0 <= i < j < |s| :: s[i] != s[j]
  }

  /** The numbers from S5-`k` on are pairwise different. */
  lemma NumbersFromDistinct(r: seq<string>, k: nat, n: nat)
    requires r == NumbersFrom(k, n)
    ensures AllDifferent(r)
  {
    forall i, j | 0 <= i < j < |r| ensures r[i] != r[j] {
      QueueNumber.NumberedDistinct(k + i, k + j);
    }
  }

  /** One same-day registration: the run from S5-NN is S5-(NN + 1) followed by the run from S5-(NN + 1). */
  lemma IssueRunStep(m: Meta, k: nat, times: seq<int>, utcOffset: int)
    requires m.queueNumber == Some(QueueNumber.Numbered(k)) && times != []
    requires DayOf(times[0], utcOffset) == DayOf(LastResetTime(m), utcOffset)
    ensures IssueRun(Some(m), times, utcOffset)
         == [QueueNumber.Numbered(k + 1)]
            + IssueRun(Some(m.(queueNumber := Some(QueueNumber.Numbered(k + 1)))), times[1..], utcOffset)
  {
    IssueSameDay(m, k, times[0], utcOffset);
  }

  /** Every registration time of `times` falls on day `day`. */
  predicate AllOnDay(times: seq<int>, day: int, utcOffset: int)
    decreases |times|
  {
    times == [] || (DayOf(times[0], utcOffset) == day && AllOnDay(times[1..], day, utcOffset))
  }

  /** S5-`k` followed by the numbers from S5-(`k` + 1) on is the run from S5-`k`. */
  lemma NumbersFromStep(r: seq<string>, rest: seq<string>, k: nat, n: nat, m: nat)
    requires n == m + 1 && r == [QueueNumber.Numbered(k)] + rest && rest == NumbersFrom(k + 1, m)
    ensures r == NumbersFrom(k, n)
  {
    NumbersFromCons(k, n);
  }

  /** S5-01 is not among the numbers from S5-`k` on when `k` is at least 2. */
  lemma NumbersFromSkipsFirst(r: seq<string>, k: nat, n: nat)
    requires k >= 2 && r == NumbersFrom(k, n)
    ensures QueueNumber.First !in r
  {
    QueueNumber.FirstIsNumberedOne();
    forall i | 0 <= i < |r| ensures r[i] != QueueNumber.Numbered(1) {
      QueueNumber.NumberedDistinct(k + i, 1);
    }
  }

  /** After S5-NN, registrations on the meta document's day get S5-(NN + 1), S5-(NN + 2), ... */
  lemma {:induction false} IssueRunCounts(m: Meta, k: nat, times: seq<int>, utcOffset: int)
    requires m.queueNumber == Some(QueueNumber.Numbered(k))
    requires AllOnDay(times, DayOf(LastResetTime(m), utcOffset), utcOffset)
    ensures IssueRun(Some(m), times, utcOffset) == NumbersFrom(k + 1, |times|)
    decreases |times|
  {
    if times != [] {
      IssueRunStep(m, k, times, utcOffset);
      var m1 := m.(queueNumber := Some(QueueNumber.Numbered(k + 1)));
      assert LastResetTime(m1) == LastResetTime(m);
      IssueRunCounts(m1, k + 1, times[1..], utcOffset);
      NumbersFromStep(IssueRun(Some(m), times, utcOffset), IssueRun(Some(m1), times[1..], utcOffset),
                      k + 1, |times|, |times[1..]|);
    }
  }

  /** The first registration of a day without current meta gets S5-01 and writes a fresh meta document. */
  lemma FirstOfDayRun(meta: Option<Meta>, times: seq<int>, utcOffset: int)
    requires times != [] && (meta.None? || ResetDue(meta, times[0], utcOffset))
    ensures IssueRun(meta, times, utcOffset)
         == [QueueNumber.First] + IssueRun(Some(InitialMeta(times[0])), times[1..], utcOffset)
  {
    FirstOfDay(meta, times[0], utcOffset);
  }

  /** The rest of that day's registrations continue from the fresh meta document: S5-02, S5-03, ... */
  lemma RestOfDayRun(times: seq<int>, utcOffset: int)
    requires times != [] && AllOnDay(times, DayOf(times[0], utcOffset), utcOffset)
    ensures IssueRun(Some(InitialMeta(times[0])), times[1..], utcOffset) == NumbersFrom(2, |times| - 1)
  {
    QueueNumber.FirstIsNumberedOne();
    var m0 := InitialMeta(times[0]);
    assert LastResetTime(m0) == times[0];
    IssueRunCounts(m0, 1, times[1..], utcOffset);
  }

  /**
   * A day's registrations, the first of which finds no meta document or a
   * stale one, get S5-01, S5-02, ... in order, and no two share a number.
   */
  lemma DayNumbers(meta: Option<Meta>, times: seq<int>, utcOffset: int)
    requires times != [] && (meta.None? || ResetDue(meta, times[0], utcOffset))
    requires AllOnDay(times, DayOf(times[0], utcOffset), utcOffset)
    ensures IssueRun(meta, times, utcOffset) == NumbersFrom(1, |times|)
    ensures AllDifferent(IssueRun(meta, times, utcOffset))
  {
    FirstOfDayRun(meta, times, utcOffset);
    RestOfDayRun(times, utcOffset);
    var r := IssueRun(meta, times, utcOffset);
    QueueNumber.FirstIsNumberedOne();
    NumbersFromStep(r, IssueRun(Some(InitialMeta(times[0])), times[1..], utcOffset), 1, |times|, |times| - 1);
    NumbersFromDistinct(r, 1, |times|);
  }

  /**
   * After a reset (lazy or scheduled) the meta document holds S5-01 as the
   * last number issued, so that day's registrations get S5-02, S5-03, ...:
   * S5-01 itself is not issued on a day that began with a reset.
   */
  lemma AfterResetNumbers(resetTime: int, times: seq<int>, utcOffset: int)
    requires AllOnDay(times, DayOf(resetTime, utcOffset), utcOffset)
    ensures IssueRun(Some(InitialMeta(resetTime)), times, utcOffset) == NumbersFrom(2, |times|)
    ensures QueueNumber.First !in IssueRun(Some(InitialMeta(resetTime)), times, utcOffset)
  {
    QueueNumber.FirstIsNumberedOne();
    var m0 := InitialMeta(resetTime);
    assert m0.queueNumber == Some(QueueNumber.Numbered(1));
    assert LastResetTime(m0) == resetTime;
    IssueRunCounts(m0, 1, times, utcOffset);
    NumbersFromSkipsFirst(IssueRun(Some(m0), times, utcOffset), 2, |times|);
  }


  /** The subscription's view: the tickets waiting or being attended, in timestamp order. */
  function ActivePatients(q: seq<Ticket>): seq<Ticket> {
    if q == [] then [] else (if q[0].status != Completed then [q[0]] else []) + ActivePatients(q[1..])
  }

  /** The view holds exactly the tickets not completed, in queue order. */
  lemma {:induction false} ActivePatientsMembers(q: seq<Ticket>)
    ensures forall t :: t in ActivePatients(q) <==> t in q && t.status != Completed
    ensures IsSubseq(ActivePatients(q), q)
  {
    if q != [] {
      ActivePatientsMembers(q[1..]);
      assert forall t | t in q :: t == q[0] || t in q[1..];
      var rest := ActivePatients(q[1..]);
      if q[0].status != Completed {
        var a := [q[0]] + rest;
        assert a[0] == q[0] && a[1..] == rest;
      } else {
        assert ActivePatients(q) == [] + rest == rest;
        SubseqOfLonger(rest, [q[0]], q[1..]);
        assert [q[0]] + q[1..] == q;
      }
    }
  }

  /** Finding a waiting or attended ticket in the view finds the same ticket as in the whole queue. */
  lemma {:induction false} FindActive(q: seq<Ticket>, st: Status)
    requires st != Completed
    ensures Find(ActivePatients(q), st) == Find(q, st)
  {
    if q != [] {
      FindActive(q[1..], st);
      FindCons(q, st);
      var rest := ActivePatients(q[1..]);
      if q[0].status != Completed {
        var a := [q[0]] + rest;
        assert a[0] == q[0] && a[1..] == rest;
        FindCons(a, st);
      } else {
        assert ActivePatients(q) == [] + rest == rest;
      }
    }
  }

  /** What "Call Next Patient" reports. */
  datatype CallOutcome = Invited(queueNumber: string) | NoMoreWaiting | Failed

  /**
   * "Call Next Patient" on the stored queue `q`, reading the view `patients`:
   * the first ticket of the view being attended becomes completed, then the
   * first waiting one becomes attended. An update of a key that is not stored
   * fails and stops the handler.
   */
  function CallNext(q: seq<Ticket>, patients: seq<Ticket>): (seq<Ticket>, CallOutcome) {
    CallOn(q, Find(patients, BeingAttended), Find(patients, Waiting))
  }

  /** The handler's two updates, for the tickets `current` and `next` it found in its view. */
  function CallOn(q: seq<Ticket>, current: Option<Ticket>, next: Option<Ticket>): (seq<Ticket>, CallOutcome) {
    if current.Some? && !HasKey(q, current.value.id) then (q, Failed)
    else
      var q1 := if current.Some? then SetStatus(q, current.value.id, Completed) else q;
      if next.None? then (q1, NoMoreWaiting)
      else if !HasKey(q1, next.value.id) then (q1, Failed)
      else (SetStatus(q1, next.value.id, BeingAttended), Invited(next.value.queueNumber))
  }

  /** The first ticket being attended, completed. */
  function CompleteFirst(q: seq<Ticket>): seq<Ticket> {
    match FirstIndexOf(q, BeingAttended)
    case None => q
    case Some(i) => q[i := q[i].(status := Completed)]
  }

  /** The effect of a call on positions: the first attended ticket completed, the first waiting one attended. */
  function Promote(q: seq<Ticket>): seq<Ticket> {
    var q1 := CompleteFirst(q);
    match FirstIndexOf(q, Waiting)
    case None => q1
    case Some(k) => q1[k := q1[k].(status := BeingAttended)]
  }

  /** What a call with an up-to-date view reports: the earliest waiting ticket's number, or that none waits. */
  function FreshOutcome(q: seq<Ticket>): CallOutcome {
    match FirstIndexOf(q, Waiting)
    case None => NoMoreWaiting
    case Some(k) => Invited(q[k].queueNumber)
  }

  /** Completing by key is completing the first attended position; keys and waiting tickets stay. */
  lemma CompleteByKey(q: seq<Ticket>)
    requires UniqueIds(q)
    ensures Find(q, BeingAttended).Some? ==>
              HasKey(q, Find(q, BeingAttended).value.id)
              && SetStatus(q, Find(q, BeingAttended).value.id, Completed) == CompleteFirst(q)
    ensures |CompleteFirst(q)| == |q| && UniqueIds(CompleteFirst(q))
    ensures forall j | 0 <= j < |q| && q[j].status == Waiting :: CompleteFirst(q)[j] == q[j]
  {
    match FirstIndexOf(q, BeingAttended)
    case None =>
    case Some(i) =>
      assert HasKey(q, q[i].id);
      SetStatusAt(q, i, Completed);
      var q1 := CompleteFirst(q);
      assert forall j | 0 <= j < |q| :: q1[j].id == q[j].id;
  }

  /** Admitting by key is admitting the first waiting position. */
  lemma AdmitByKey(q1: seq<Ticket>, k: nat)
    requires UniqueIds(q1) && k < |q1|
    ensures HasKey(q1, q1[k].id)
    ensures SetStatus(q1, q1[k].id, BeingAttended) == q1[k := q1[k].(status := BeingAttended)]
  {
    SetStatusAt(q1, k, BeingAttended);
  }

  /** With the view up to date, a call never fails and acts on the earliest attended and waiting tickets. */
  lemma CallNextFresh(q: seq<Ticket>)
    requires UniqueIds(q)
    ensures CallNext(q, ActivePatients(q)) == (Promote(q), FreshOutcome(q))
  {
    FindActive(q, BeingAttended);
    FindActive(q, Waiting);
    CompleteByKey(q);
    var q1 := CompleteFirst(q);
    assert (if Find(q, BeingAttended).Some? then SetStatus(q, Find(q, BeingAttended).value.id, Completed) else q) == q1;
    match FirstIndexOf(q, Waiting)
    case None =>
    case Some(k) =>
      assert q1[k] == q[k];
      AdmitByKey(q1, k);
  }

  /** The order of statuses a ticket moves through. */
  function Rank(st: Status): nat {
    match st
    case Waiting => 0
    case BeingAttended => 1
    case Completed => 2
  }

  /**
   * A call changes at most two tickets, only their status, and never moves a
   * status backwards; the earliest waiting ticket becomes attended and the
   * earliest attended one completed.
   */
  lemma PromoteEffect(q: seq<Ticket>)
    ensures |Promote(q)| == |q|
    ensures forall j | 0 <= j < |q| :: Promote(q)[j] == q[j].(status := Promote(q)[j].status)
    ensures forall j | 0 <= j < |q| :: Rank(q[j].status) <= Rank(Promote(q)[j].status)
    ensures forall j | 0 <= j < |q| && Promote(q)[j] != q[j] ::
              Some(j) == FirstIndexOf(q, Waiting) || Some(j) == FirstIndexOf(q, BeingAttended)
    ensures FirstIndexOf(q, Waiting).Some? ==> Promote(q)[FirstIndexOf(q, Waiting).value].status == BeingAttended
    ensures FirstIndexOf(q, BeingAttended).Some? ==> Promote(q)[FirstIndexOf(q, BeingAttended).value].status == Completed
  {
  }

  /** Completing the first attended ticket moves one ticket from attended to completed, if there is one. */
  lemma CompleteFirstCounts(q: seq<Ticket>)
    ensures CountStatus(CompleteFirst(q), Waiting) == CountStatus(q, Waiting)
    ensures CountStatus(CompleteFirst(q), BeingAttended)
         == CountStatus(q, BeingAttended) - Indicator(FirstIndexOf(q, BeingAttended).Some?)
    ensures CountStatus(CompleteFirst(q), Completed)
         == CountStatus(q, Completed) + Indicator(FirstIndexOf(q, BeingAttended).Some?)
  {
    match FirstIndexOf(q, BeingAttended)
    case None =>
    case Some(i) =>
      var t := q[i].(status := Completed);
      CountUpdate(q, i, t, Waiting);
      CountUpdate(q, i, t, BeingAttended);
      CountUpdate(q, i, t, Completed);
  }

  /** A call removes one ticket from those waiting when any waits, and completes the attended one when there is one. */
  lemma PromoteCounts(q: seq<Ticket>)
    ensures CountStatus(Promote(q), Waiting)
         == CountStatus(q, Waiting) - Indicator(FirstIndexOf(q, Waiting).Some?)
    ensures CountStatus(Promote(q), BeingAttended)
         == CountStatus(q, BeingAttended) - Indicator(FirstIndexOf(q, BeingAttended).Some?)
            + Indicator(FirstIndexOf(q, Waiting).Some?)
    ensures CountStatus(Promote(q), Completed)
         == CountStatus(q, Completed) + Indicator(FirstIndexOf(q, BeingAttended).Some?)
  {
    CompleteFirstCounts(q);
    var q1 := CompleteFirst(q);
    match FirstIndexOf(q, Waiting)
    case None =>
    case Some(k) =>
      assert q1[k] == q[k];
      var t := q1[k].(status := BeingAttended);
      assert Promote(q) == q1[k := t];
      CountUpdate(q1, k, t, Waiting);
      CountUpdate(q1, k, t, BeingAttended);
      CountUpdate(q1, k, t, Completed);
  }

  /** At most one patient is being attended at a time. */
  predicate AtMostOneServing(q: seq<Ticket>) {
    CountStatus(q, BeingAttended) <= 1
  }

  /** A call keeps at most one patient attended, and one is attended afterwards exactly when someone was waiting. */
  lemma PromoteServing(q: seq<Ticket>)
    requires AtMostOneServing(q)
    ensures AtMostOneServing(Promote(q))
    ensures CountStatus(Promote(q), BeingAttended) == Indicator(FirstIndexOf(q, Waiting).Some?)
  {
    PromoteCounts(q);
    CountZero(q, BeingAttended);
  }

  /** What a registration reports. */
  datatype Registration = InvalidFormat | UnknownEmployee | Registered(queueNumber: string)

  /** The admin console's state: the employee ID typed in and the subscription's latest view. */
  class AdminConsole {
    const db: ClinicDb
    /** How far the console's clock is ahead of UTC, in milliseconds. */
    const utcOffset: int
    var empID: string
    var patients: seq<Ticket>

    ghost predicate Valid()
      reads this, db
    {
      db.Valid()
    }

    constructor (db: ClinicDb, utcOffset: int)
      requires db.Valid()
      ensures Valid()
      ensures this.db == db && this.utcOffset == utcOffset && empID == [] && patients == []
    {
      this.db := db;
      this.utcOffset := utcOffset;
      empID := [];
      patients := [];
    }

    /** The input field's `onChange`. */
    method SetEmpID(s: string)
      modifies this
      ensures empID == s && patients == old(patients)
    {
      empID := s;
    }

    /**
     * Opening the console: when the meta document exists and was last reset on
     * another day, the queue is wiped and the meta document reset in one batch
     * (`commitOk` false: the commit failed and only an error is logged).
     */
    method Open(now: int, commitOk: bool)
      requires Valid()
      modifies db
      ensures Valid()
      ensures ResetDue(old(db.meta), now, utcOffset) && commitOk ==>
                db.queue == [] && db.meta == Some(InitialMeta(now))
      ensures !(ResetDue(old(db.meta), now, utcOffset) && commitOk) ==>
                db.queue == old(db.queue) && db.meta == old(db.meta)
      ensures db.employees == old(db.employees)
      ensures db.sickConditions == old(db.sickConditions) && db.medicines == old(db.medicines)
    {
      if ResetDue(db.meta, now, utcOffset) {
        DailyReset.ResetDailyQueue(db, now, commitOk);
      }
    }

    /** The subscription delivering a snapshot of the active patients. */
    method Refresh()
      modifies this
      ensures patients == ActivePatients(db.queue) && empID == old(empID)
    {
      patients := ActivePatients(db.queue);
    }

    /**
     * "Register New Patient" at time `now`: a malformed ID or one without a
     * roster entry is refused and nothing is written; otherwise a number is
     * issued, the meta document written back, the ticket stored under the
     * employee ID as waiting, and the input cleared.
     */
    method RegisterPatient(now: int) returns (r: Registration)
      requires Valid()
      modifies this, db
      ensures Valid()
      ensures !IsEmployeeId(old(empID)) ==> r == InvalidFormat
      ensures IsEmployeeId(old(empID)) && !db.HasEmployee(old(empID)) ==> r == UnknownEmployee
      ensures !r.Registered? ==> empID == old(empID) && db.queue == old(db.queue) && db.meta == old(db.meta)
      ensures IsEmployeeId(old(empID)) && db.HasEmployee(old(empID)) ==>
                var issued := IssueTicket(old(db.meta), now, utcOffset);
                && r == Registered(issued.0)
                && db.meta == Some(issued.1)
                && db.queue == Upsert(old(db.queue), Ticket(old(empID), issued.0, Waiting, now))
                && empID == []
      ensures AtMostOneServing(old(db.queue)) ==> AtMostOneServing(db.queue)
      ensures db.employees == old(db.employees) && patients == old(patients)
      ensures db.sickConditions == old(db.sickConditions) && db.medicines == old(db.medicines)
    {
      if !IsEmployeeId(empID) {
        return InvalidFormat;
      }
      if !db.HasEmployee(empID) {
        return UnknownEmployee;
      }
      var issued := IssueTicket(db.meta, now, utcOffset);
      UpsertKeeps(db.queue, Ticket(empID, issued.0, Waiting, now));
      db.WriteMeta(issued.1);
      db.SetTicket(Ticket(empID, issued.0, Waiting, now));
      r := Registered(issued.0);
      empID := [];
    }

    /**
     * "Call Next Patient", reading the subscription's view. With the view up
     * to date the call acts as `Promote` and keeps at most one patient attended.
     */
    method InviteNextPatient() returns (r: CallOutcome)
      requires Valid()
      modifies db
      ensures Valid()
      ensures (db.queue, r) == CallNext(old(db.queue), patients)
      ensures patients == ActivePatients(old(db.queue)) ==>
                db.queue == Promote(old(db.queue)) && r == FreshOutcome(old(db.queue))
      ensures patients == ActivePatients(old(db.queue)) && AtMostOneServing(old(db.queue)) ==>
                AtMostOneServing(db.queue)
      ensures db.meta == old(db.meta) && db.employees == old(db.employees)
      ensures db.sickConditions == old(db.sickConditions) && db.medicines == old(db.medicines)
    {
      if patients == ActivePatients(db.queue) {
        CallNextFresh(db.queue);
        if AtMostOneServing(db.queue) {
          PromoteServing(db.queue);
        }
      }
      var current := Find(patients, BeingAttended);
      var next := Find(patients, Waiting);
      if current.Some? {
        var found := db.UpdateStatus(current.value.id, Completed);
        if !found {
          SetStatusAbsent(old(db.queue), current.value.id, Completed);
          return Failed;
        }
      }
      if next.Some? {
        ghost var before := db.queue;
        var found := db.UpdateStatus(next.value.id, BeingAttended);
        if !found {
          SetStatusAbsent(before, next.value.id, BeingAttended);
          return Failed;
        }
        return Invited(next.value.queueNumber);
      }
      return NoMoreWaiting;
    }
  }
}
