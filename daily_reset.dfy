/**
 * The scheduled daily reset: one batch that deletes every queue document and
 * overwrites the meta document with number S5-01 and the current time.
 */
module DailyReset {
  import opened Wrappers
  import opened Tickets
  import opened Store

  /** One delete per document of the snapshot, in snapshot order. */
  function Deletes(snapshot: seq<Ticket>): seq<Write> {
    seq(|snapshot|, i requires 0 <= i < |snapshot| => DeleteTicket(snapshot[i].id))
  }

  /** The batch a reset commits: the deletes, then the meta document replaced. */
  function ResetWrites(snapshot: seq<Ticket>, now: int): seq<Write> {
    Deletes(snapshot) + [SetMeta(InitialMeta(now))]
  }

  /** The batch built by `snapshot.forEach(doc => batch.delete(doc.ref))` followed by `batch.set(meta, ...)`. */
  method BuildResetBatch(snapshot: seq<Ticket>, now: int) returns (batch: seq<Write>)
    ensures batch == ResetWrites(snapshot, now)
  {
    batch := [];
    for i := 0 to |snapshot|
      invariant |batch| == i
      invariant forall j | 0 <= j < i :: batch[j] == DeleteTicket(snapshot[j].id)
    {
      batch := batch + [DeleteTicket(snapshot[i].id)];
    }
    assert batch == Deletes(snapshot);
    batch := batch + [SetMeta(InitialMeta(now))];
  }

  /** The tickets of `q` whose key is not in `keys`. */
  function DropKeys(q: seq<Ticket>, keys: set<string>): seq<Ticket> {
    if q == [] then [] else (if q[0].id in keys then [] else [q[0]]) + DropKeys(q[1..], keys)
  }

  function KeysOf(q: seq<Ticket>): set<string> {
    set i | 0 <= i < |q| :: q[i].id
  }

  lemma {:induction false} DropNoKeys(q: seq<Ticket>)
    ensures DropKeys(q, {}) == q
  {
    if q != [] {
      DropNoKeys(q[1..]);
    }
  }

  lemma {:induction false} DropAllKeys(q: seq<Ticket>, keys: set<string>)
    requires forall i | 0 <= i < |q| :: q[i].id in keys
    ensures DropKeys(q, keys) == []
  {
    if q != [] {
      assert forall i | 0 <= i < |q[1..]| :: q[1..][i] == q[i + 1];
      DropAllKeys(q[1..], keys);
    }
  }

  /** Deleting one more key from a filtered queue is filtering by one more key. */
  lemma {:induction false} RemoveFromDropped(q: seq<Ticket>, keys: set<string>, id: string)
    ensures RemoveId(DropKeys(q, keys), id) == DropKeys(q, keys + {id})
  {
    if q != [] {
      RemoveFromDropped(q[1..], keys, id);
      var rest := DropKeys(q[1..], keys);
      if q[0].id in keys {
        assert DropKeys(q, keys) == rest;
      } else {
        var d := [q[0]] + rest;
        assert DropKeys(q, keys) == d;
        assert d[0] == q[0] && d[1..] == rest;
        assert RemoveId(d, id) == (if q[0].id == id then [] else [q[0]]) + RemoveId(rest, id);
      }
    }
  }

  /** The deletes of a snapshot, applied in order, drop exactly the snapshot's keys. */
  lemma {:induction false} ApplyDeletes(q: seq<Ticket>, keys: set<string>, m: Option<Meta>,
                                        s: seq<Ticket>, rest: seq<Write>)
    ensures ApplyWrites(DropKeys(q, keys), m, Deletes(s) + rest)
         == ApplyWrites(DropKeys(q, keys + KeysOf(s)), m, rest)
    decreases |s|
  {
    if s == [] {
      assert Deletes(s) + rest == rest;
      assert KeysOf(s) == {};
      assert keys + KeysOf(s) == keys;
    } else {
      var batch := Deletes(s) + rest;
      assert batch[0] == DeleteTicket(s[0].id);
      assert batch[1..] == Deletes(s[1..]) + rest;
      RemoveFromDropped(q, keys, s[0].id);
      ApplyDeletes(q, keys + {s[0].id}, m, s[1..], rest);
      assert KeysOf(s) == {s[0].id} + KeysOf(s[1..]) by {
        forall k | k in KeysOf(s) ensures k in {s[0].id} + KeysOf(s[1..]) {
          var i :| 0 <= i < |s| && s[i].id == k;
          if i > 0 { assert s[1..][i - 1].id == k; }
        }
        forall k | k in KeysOf(s[1..]) ensures k in KeysOf(s) {
          var i :| 0 <= i < |s[1..]| && s[1..][i].id == k;
          assert s[i + 1].id == k;
        }
      }
      assert keys + {s[0].id} + KeysOf(s[1..]) == keys + KeysOf(s);
    }
  }

  /**
   * Committing the reset batch built from the whole queue empties the queue
   * (also when it was already empty) and leaves exactly the initial meta
   * document, whatever fields the old one had.
   */
  lemma ResetClearsQueue(q: seq<Ticket>, m: Option<Meta>, now: int)
    ensures ApplyWrites(q, m, ResetWrites(q, now)) == ([], Some(InitialMeta(now)))
  {
    DropNoKeys(q);
    ApplyDeletes(q, {}, m, q, [SetMeta(InitialMeta(now))]);
    DropAllKeys(q, {} + KeysOf(q));
    var b := [SetMeta(InitialMeta(now))];
    assert b[1..] == [];
  }

  /** A second reset after a reset leaves the same queue and the same number: the reset is idempotent. */
  lemma ResetIdempotent(q: seq<Ticket>, m: Option<Meta>, now1: int, now2: int)
    ensures var once := ApplyWrites(q, m, ResetWrites(q, now1));
            var twice := ApplyWrites(once.0, once.1, ResetWrites(once.0, now2));
            twice.0 == once.0 == [] && twice.1.Some? && once.1.Some?
            && twice.1.value.queueNumber == once.1.value.queueNumber
            && (now1 == now2 ==> twice == once)
  {
    ResetClearsQueue(q, m, now1);
    ResetClearsQueue([], Some(InitialMeta(now1)), now2);
  }

  /**
   * functions/index.js `resetDailyQueue`: read the queue, batch a delete per
   * document and the meta overwrite, commit. A failed commit (`commitOk` false)
   * is only logged: nothing changes.
   */
  method ResetDailyQueue(db: ClinicDb, now: int, commitOk: bool)
    requires db.Valid()
    modifies db
    ensures db.Valid()
    ensures commitOk ==> db.queue == [] && db.meta == Some(InitialMeta(now))
    ensures !commitOk ==> db.queue == old(db.queue) && db.meta == old(db.meta)
    ensures db.employees == old(db.employees)
    ensures db.sickConditions == old(db.sickConditions) && db.medicines == old(db.medicines)
  {
    var snapshot := db.queue;
    var batch := BuildResetBatch(snapshot, now);
    ResetClearsQueue(snapshot, db.meta, now);
    db.Commit(batch, commitOk);
  }
}
