/**
 * The documents of the "queue" collection and the list operations the admin
 * console and the TV display perform on them: `find` by status, `filter` by
 * status, overwriting a document by key, and changing one document's status.
 * A queue is a sequence of tickets in timestamp order (the order the views
 * query with `orderBy("timestamp", "asc")`).
 */
module Tickets {
  import opened Wrappers

  datatype Status = Waiting | BeingAttended | Completed

  /**
   * A queue document. `id` is the document key, which registration sets to the
   * employee ID (the stored `employeeID` field always equals it); `timestamp`
   * is the registration time in milliseconds.
   */
  datatype Ticket = Ticket(id: string, queueNumber: string, status: Status, timestamp: int)

  /** Document keys are unique within a collection. */
  predicate UniqueIds(q: seq<Ticket>) {
    forall i, j | 0 <= i < j < |q| :: q[i].id != q[j].id
  }

  /** The order in which the views list the queue. */
  predicate InTimestampOrder(q: seq<Ticket>) {
    forall i, j | 0 <= i < j < |q| :: q[i].timestamp <= q[j].timestamp
  }

  /** The position of the first ticket with status `st`. */
  function FirstIndexOf(q: seq<Ticket>, st: Status): (r: Option<nat>)
    ensures r.Some? ==> r.value < |q| && q[r.value].status == st
    ensures r.Some? ==> forall j | 0 <= j < r.value :: q[j].status != st
    ensures r.None? <==> forall j | 0 <= j < |q| :: q[j].status != st
  {
    if q == [] then None
    else if q[0].status == st then Some(0)
    else match FirstIndexOf(q[1..], st)
      case None => None
      case Some(i) => Some(i + 1)
  }

  /** `q.find(p => p.status === st)`: the earliest ticket with that status, if any. */
  function Find(q: seq<Ticket>, st: Status): (r: Option<Ticket>)
    ensures r.None? <==> forall j | 0 <= j < |q| :: q[j].status != st
    ensures r.Some? ==> exists i | 0 <= i < |q| :: q[i] == r.value && r.value.status == st
                                               && forall j | 0 <= j < i :: q[j].status != st
  {
    match FirstIndexOf(q, st)
    case None => None
    case Some(i) => Some(q[i])
  }

  /** `find` looks at the first ticket, then at the rest. */
  lemma FindCons(q: seq<Ticket>, st: Status)
    requires q != []
    ensures Find(q, st) == if q[0].status == st then Some(q[0]) else Find(q[1..], st)
  {
    if q[0].status != st {
      match FirstIndexOf(q[1..], st)
      case None =>
      case Some(i) => assert q[i + 1] == q[1..][i];
    }
  }

  /** `q.filter(p => p.status === st)`. */
  function WithStatus(q: seq<Ticket>, st: Status): seq<Ticket> {
    if q == [] then [] else (if q[0].status == st then [q[0]] else []) + WithStatus(q[1..], st)
  }

  /** The filter keeps exactly the tickets with status `st`. */
  lemma {:induction false} WithStatusMembers(q: seq<Ticket>, st: Status)
    ensures forall t :: t in WithStatus(q, st) <==> t in q && t.status == st
  {
    if q != [] {
      WithStatusMembers(q[1..], st);
      assert forall t | t in q :: t == q[0] || t in q[1..];
    }
  }

  /** Filtering distributes over concatenation: the filter keeps the order of the list. */
  lemma {:induction false} WithStatusAppend(a: seq<Ticket>, b: seq<Ticket>, st: Status)
    ensures WithStatus(a + b, st) == WithStatus(a, st) + WithStatus(b, st)
  {
    if a == [] {
      assert a + b == b;
    } else {
      var h := if a[0].status == st then [a[0]] else [];
      calc {
        WithStatus(a + b, st);
        { assert (a + b)[0] == a[0]; }
        h + WithStatus((a + b)[1..], st);
        { assert (a + b)[1..] == a[1..] + b; }
        h + WithStatus(a[1..] + b, st);
        { WithStatusAppend(a[1..], b, st); }
        h + (WithStatus(a[1..], st) + WithStatus(b, st));
        (h + WithStatus(a[1..], st)) + WithStatus(b, st);
        WithStatus(a, st) + WithStatus(b, st);
      }
    }
  }

  /** How many tickets have status `st`. */
  function CountStatus(q: seq<Ticket>, st: Status): nat {
    if q == [] then 0 else Indicator(q[0].status == st) + CountStatus(q[1..], st)
  }

  function Indicator(b: bool): nat {
    if b then 1 else 0
  }

  lemma {:induction false} CountZero(q: seq<Ticket>, st: Status)
    ensures CountStatus(q, st) == 0 <==> forall j | 0 <= j < |q| :: q[j].status != st
  {
    if q != [] {
      CountZero(q[1..], st);
      assert forall j | 1 <= j < |q| :: q[j] == q[1..][j - 1];
    }
  }

  /** Replacing one ticket changes a status count only by the two tickets involved. */
  lemma {:induction false} CountUpdate(q: seq<Ticket>, i: nat, t: Ticket, st: Status)
    requires i < |q|
    ensures CountStatus(q[i := t], st)
         == CountStatus(q, st) - Indicator(q[i].status == st) + Indicator(t.status == st)
  {
    if i == 0 {
      assert q[i := t][1..] == q[1..];
    } else {
      CountUpdate(q[1..], i - 1, t, st);
      assert q[i := t][1..] == q[1..][i - 1 := t];
    }
  }

  /** `q` without the ticket whose key is `id` (a `deleteDoc`, a no-op when it is absent). */
  function RemoveId(q: seq<Ticket>, id: string): seq<Ticket> {
    if q == [] then []
    else if q[0].id == id then RemoveId(q[1..], id)
    else [q[0]] + RemoveId(q[1..], id)
  }

  /** Removing a document keeps every document under another key. */
  lemma {:induction false} RemoveIdMembers(q: seq<Ticket>, id: string)
    ensures forall t :: t in RemoveId(q, id) <==> t in q && t.id != id
  {
    if q != [] {
      RemoveIdMembers(q[1..], id);
      assert forall t | t in q :: t == q[0] || t in q[1..];
    }
  }

  /** The tail of a list with unique keys has unique keys, none of them the head's. */
  lemma UniqueTail(q: seq<Ticket>)
    requires q != [] && UniqueIds(q)
    ensures UniqueIds(q[1..]) && forall t | t in q[1..] :: t.id != q[0].id
  {
    var tail := q[1..];
    forall t | t in tail ensures t.id != q[0].id {
      var j :| 0 <= j < |tail| && tail[j] == t;
      assert q[j + 1] == t;
    }
  }

  /** The tail of an ordered list is ordered, and the head is not later than any of it. */
  lemma OrderedTail(q: seq<Ticket>)
    requires q != [] && InTimestampOrder(q)
    ensures InTimestampOrder(q[1..]) && forall t | t in q[1..] :: q[0].timestamp <= t.timestamp
  {
    var tail := q[1..];
    forall t | t in tail ensures q[0].timestamp <= t.timestamp {
      var j :| 0 <= j < |tail| && tail[j] == t;
      assert q[j + 1] == t;
    }
  }

  /** Removing a document keeps keys unique and the timestamp order. */
  lemma {:induction false} RemoveIdKeeps(q: seq<Ticket>, id: string)
    ensures UniqueIds(q) ==> UniqueIds(RemoveId(q, id))
    ensures InTimestampOrder(q) ==> InTimestampOrder(RemoveId(q, id))
  {
    if q != [] {
      var rest := RemoveId(q[1..], id);
      RemoveIdKeeps(q[1..], id);
      RemoveIdMembers(q[1..], id);
      if UniqueIds(q) {
        UniqueTail(q);
        if q[0].id != id {
          ConsUnique(q[0], rest);
        }
      }
      if InTimestampOrder(q) {
        OrderedTail(q);
        if q[0].id != id {
          ConsOrdered(q[0], rest);
        }
      }
    }
  }

  /** Removing a document never adds to a status. */
  lemma {:induction false} RemoveIdCount(q: seq<Ticket>, id: string, st: Status)
    ensures CountStatus(RemoveId(q, id), st) <= CountStatus(q, st)
  {
    if q != [] {
      RemoveIdCount(q[1..], id, st);
      if q[0].id != id {
        assert ([q[0]] + RemoveId(q[1..], id))[1..] == RemoveId(q[1..], id);
      }
    }
  }

  /** `t` placed after every ticket that is not later than it. */
  function InsertByTime(q: seq<Ticket>, t: Ticket): seq<Ticket> {
    if q == [] then [t]
    else if q[0].timestamp > t.timestamp then [t] + q
    else [q[0]] + InsertByTime(q[1..], t)
  }

  /** Inserting adds `t` and nothing else. */
  lemma {:induction false} InsertByTimeMembers(q: seq<Ticket>, t: Ticket)
    ensures forall x :: x in InsertByTime(q, t) <==> x in q || x == t
  {
    if q != [] && q[0].timestamp <= t.timestamp {
      InsertByTimeMembers(q[1..], t);
      assert forall x | x in q :: x == q[0] || x in q[1..];
    }
  }

  /** A ticket placed in front of a list it is not later than keeps the list ordered. */
  lemma ConsOrdered(x: Ticket, q: seq<Ticket>)
    requires InTimestampOrder(q) && forall y | y in q :: x.timestamp <= y.timestamp
    ensures InTimestampOrder([x] + q)
  {
    var r := [x] + q;
    forall i, j | 0 <= i < j < |r| ensures r[i].timestamp <= r[j].timestamp {
      assert r[j] == q[j - 1];
      if i > 0 { assert r[i] == q[i - 1]; }
    }
  }

  /** A ticket placed in front of a list without its key keeps the keys unique. */
  lemma ConsUnique(x: Ticket, q: seq<Ticket>)
    requires UniqueIds(q) && forall y | y in q :: x.id != y.id
    ensures UniqueIds([x] + q)
  {
    var r := [x] + q;
    forall i, j | 0 <= i < j < |r| ensures r[i].id != r[j].id {
      assert r[j] == q[j - 1];
      if i > 0 { assert r[i] == q[i - 1]; }
    }
  }

  /** Inserting keeps the timestamp order. */
  lemma {:induction false} InsertByTimeOrdered(q: seq<Ticket>, t: Ticket)
    requires InTimestampOrder(q)
    ensures InTimestampOrder(InsertByTime(q, t))
  {
    if q == [] {
    } else if q[0].timestamp > t.timestamp {
      assert forall x | x in q :: t.timestamp < x.timestamp;
      ConsOrdered(t, q);
    } else {
      var rest := InsertByTime(q[1..], t);
      InsertByTimeOrdered(q[1..], t);
      InsertByTimeMembers(q[1..], t);
      assert forall x | x in rest :: q[0].timestamp <= x.timestamp;
      ConsOrdered(q[0], rest);
    }
  }

  /** Inserting a ticket under a new key keeps keys unique. */
  lemma {:induction false} InsertByTimeUnique(q: seq<Ticket>, t: Ticket)
    requires UniqueIds(q) && forall x | x in q :: x.id != t.id
    ensures UniqueIds(InsertByTime(q, t))
  {
    if q == [] {
    } else if q[0].timestamp > t.timestamp {
      ConsUnique(t, q);
    } else {
      var rest := InsertByTime(q[1..], t);
      InsertByTimeUnique(q[1..], t);
      InsertByTimeMembers(q[1..], t);
      assert forall x | x in rest :: x.id != q[0].id;
      ConsUnique(q[0], rest);
    }
  }

  /** Inserting adds `t` to the count of its status and leaves the other counts. */
  lemma {:induction false} InsertByTimeCount(q: seq<Ticket>, t: Ticket, st: Status)
    ensures CountStatus(InsertByTime(q, t), st) == CountStatus(q, st) + Indicator(t.status == st)
  {
    if q == [] {
    } else if q[0].timestamp > t.timestamp {
      assert ([t] + q)[1..] == q;
    } else {
      InsertByTimeCount(q[1..], t, st);
      assert ([q[0]] + InsertByTime(q[1..], t))[1..] == InsertByTime(q[1..], t);
    }
  }

  /**
   * `setDoc(doc(queue, t.id), t)`: the document with key `t.id` becomes `t`,
   * whatever was stored under that key before; every other document stays.
   */
  function Upsert(q: seq<Ticket>, t: Ticket): seq<Ticket> {
    InsertByTime(RemoveId(q, t.id), t)
  }

  /**
   * After an overwrite the key `t.id` holds `t` and only `t`, every document
   * under another key is kept, keys stay unique and ordered, and a ticket that
   * is not being attended never adds to those being attended.
   */
  lemma UpsertKeeps(q: seq<Ticket>, t: Ticket)
    ensures t in Upsert(q, t)
    ensures forall x | x in Upsert(q, t) && x.id == t.id :: x == t
    ensures forall x: Ticket | x.id != t.id :: x in Upsert(q, t) <==> x in q
    ensures UniqueIds(q) ==> UniqueIds(Upsert(q, t))
    ensures InTimestampOrder(q) ==> InTimestampOrder(Upsert(q, t))
    ensures t.status != BeingAttended ==> CountStatus(Upsert(q, t), BeingAttended) <= CountStatus(q, BeingAttended)
  {
    var rest := RemoveId(q, t.id);
    RemoveIdMembers(q, t.id);
    RemoveIdKeeps(q, t.id);
    RemoveIdCount(q, t.id, BeingAttended);
    InsertByTimeMembers(rest, t);
    if InTimestampOrder(q) { InsertByTimeOrdered(rest, t); }
    if UniqueIds(q) { InsertByTimeUnique(rest, t); }
    InsertByTimeCount(rest, t, BeingAttended);
  }

  /** Whether some document of the queue has key `id`. */
  predicate HasKey(q: seq<Ticket>, id: string) {
    exists i | 0 <= i < |q| :: q[i].id == id
  }

  /**
   * `updateDoc(doc(queue, id), {status: st})` on the documents present: only
   * the status field is written, every document with key `id` gets `st`, and
   * every other document is left as it was.
   */
  function SetStatus(q: seq<Ticket>, id: string, st: Status): (r: seq<Ticket>)
    ensures |r| == |q|
    ensures forall i | 0 <= i < |q| ::
              r[i].id == q[i].id && r[i].queueNumber == q[i].queueNumber && r[i].timestamp == q[i].timestamp
    ensures forall i | 0 <= i < |q| && q[i].id == id :: r[i].status == st
    ensures forall i | 0 <= i < |q| && q[i].id != id :: r[i] == q[i]
  {
    seq(|q|, i requires 0 <= i < |q| => if q[i].id == id then q[i].(status := st) else q[i])
  }

  /** Updating a key that is not stored changes nothing. */
  lemma SetStatusAbsent(q: seq<Ticket>, id: string, st: Status)
    requires !HasKey(q, id)
    ensures SetStatus(q, id, st) == q
  {
  }

  /** With unique keys, changing the status of `q[i]`'s key changes exactly `q[i]`. */
  lemma SetStatusAt(q: seq<Ticket>, i: nat, st: Status)
    requires UniqueIds(q) && i < |q|
    ensures SetStatus(q, q[i].id, st) == q[i := q[i].(status := st)]
  {
  }
}
