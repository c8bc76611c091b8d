/**
 * The document database the clinic code talks to, kept in memory: the
 * "queue", "queueMeta", "employees", "sickConditions" and "medicines"
 * collections, and the writes the code issues against them.
 */
module Store {
  import opened Wrappers
  import opened Tickets
  import QueueNumber

  /**
   * The singleton queue meta document. `queueNumber` is the last number
   * issued (None when the field is missing); `lastResetDate` is a time in
   * milliseconds (None when the field is missing or is not a Timestamp);
   * `others` holds any further fields.
   */
  datatype Meta = Meta(queueNumber: Option<string>, lastResetDate: Option<int>, others: map<string, string>)

  /** The meta document a reset writes, replacing every field: number S5-01, reset time `now`. */
  function InitialMeta(now: int): Meta {
    Meta(Some(QueueNumber.First), Some(now), map[])
  }

  /** A document of the "employees" collection (the roster). */
  datatype Employee = Employee(empID: string, name: string, gender: string, department: string, mobile: string)

  /** An entry of the "sickConditions" or "medicines" collection. */
  datatype Item = Item(id: string, name: string)

  datatype OptionList = SickConditions | Medicines

  /** One write of a batch. */
  datatype Write = DeleteTicket(id: string) | SetMeta(meta: Meta)

  /** The queue and meta document after the writes of `batch`, applied in order. */
  function ApplyWrites(q: seq<Ticket>, m: Option<Meta>, batch: seq<Write>): (seq<Ticket>, Option<Meta>)
    decreases |batch|
  {
    if batch == [] then (q, m)
    else match batch[0]
      case DeleteTicket(id) => ApplyWrites(RemoveId(q, id), m, batch[1..])
      case SetMeta(meta) => ApplyWrites(q, Some(meta), batch[1..])
  }

  /** Deleting documents keeps the queue's keys unique and its order. */
  lemma {:induction false} ApplyWritesKeeps(q: seq<Ticket>, m: Option<Meta>, batch: seq<Write>)
    requires UniqueIds(q) && InTimestampOrder(q)
    ensures UniqueIds(ApplyWrites(q, m, batch).0) && InTimestampOrder(ApplyWrites(q, m, batch).0)
    decreases |batch|
  {
    if batch != [] {
      match batch[0]
      case DeleteTicket(id) =>
        RemoveIdKeeps(q, id);
        ApplyWritesKeeps(RemoveId(q, id), m, batch[1..]);
      case SetMeta(meta) =>
        ApplyWritesKeeps(q, Some(meta), batch[1..]);
    }
  }

  class ClinicDb {
    /** The "queue" collection, in timestamp order. */
    var queue: seq<Ticket>
    /** The "queueMeta" collection: empty or one document. */
    var meta: Option<Meta>
    var employees: seq<Employee>
    var sickConditions: seq<Item>
    var medicines: seq<Item>

    ghost predicate Valid()
      reads this
    {
      UniqueIds(queue) && InTimestampOrder(queue)
    }

    constructor (queue: seq<Ticket>, meta: Option<Meta>, employees: seq<Employee>,
                 sickConditions: seq<Item>, medicines: seq<Item>)
      requires UniqueIds(queue) && InTimestampOrder(queue)
      ensures Valid()
      ensures this.queue == queue && this.meta == meta && this.employees == employees
      ensures this.sickConditions == sickConditions && this.medicines == medicines
    {
      this.queue := queue;
      this.meta := meta;
      this.employees := employees;
      this.sickConditions := sickConditions;
      this.medicines := medicines;
    }

    /** Whether `query(employees, where("empID", "==", id))` is non-empty. */
    predicate HasEmployee(id: string)
      reads this
    {
      exists i | 0 <= i < |employees| :: employees[i].empID == id
    }

    function Options(list: OptionList): seq<Item>
      reads this
    {
      match list
      case SickConditions => sickConditions
      case Medicines => medicines
    }

    /** `setDoc` of a queue document: overwrites whatever the key held. */
    method SetTicket(t: Ticket)
      requires Valid()
      modifies this
      ensures Valid()
      ensures queue == Upsert(old(queue), t)
      ensures meta == old(meta) && employees == old(employees)
      ensures sickConditions == old(sickConditions) && medicines == old(medicines)
    {
      UpsertKeeps(queue, t);
      queue := Upsert(queue, t);
    }

    /** `updateDoc` of a queue document's status; `found` is false when no document has that key, and `updateDoc` then fails. */
    method UpdateStatus(id: string, st: Status) returns (found: bool)
      requires Valid()
      modifies this
      ensures Valid()
      ensures found <==> HasKey(old(queue), id)
      ensures queue == SetStatus(old(queue), id, st)
      ensures meta == old(meta) && employees == old(employees)
      ensures sickConditions == old(sickConditions) && medicines == old(medicines)
    {
      found := HasKey(queue, id);
      queue := SetStatus(queue, id, st);
    }

    /** `setDoc` of the meta document: replaces all of its fields. */
    method WriteMeta(m: Meta)
      modifies this
      ensures meta == Some(m)
      ensures queue == old(queue) && employees == old(employees)
      ensures sickConditions == old(sickConditions) && medicines == old(medicines)
    {
      meta := Some(m);
    }

    /** `batch.commit()`: all writes take effect, or, when the commit fails, none. */
    method Commit(batch: seq<Write>, ok: bool)
      requires Valid()
      modifies this
      ensures ok ==> (queue, meta) == ApplyWrites(old(queue), old(meta), batch)
      ensures !ok ==> queue == old(queue) && meta == old(meta)
      ensures employees == old(employees)
      ensures sickConditions == old(sickConditions) && medicines == old(medicines)
      ensures Valid()
    {
      if ok {
        ApplyWritesKeeps(queue, meta, batch);
        var after := ApplyWrites(queue, meta, batch);
        queue, meta := after.0, after.1;
      }
    }

    /** `addDoc` to the "employees" collection. */
    method AddEmployee(e: Employee)
      modifies this
      ensures employees == old(employees) + [e]
      ensures queue == old(queue) && meta == old(meta)
      ensures sickConditions == old(sickConditions) && medicines == old(medicines)
    {
      employees := employees + [e];
    }

    /** `addDoc` to an option collection; `item.id` is the key the database generated. */
    method AddOption(list: OptionList, item: Item)
      modifies this
      ensures Options(list) == old(Options(list)) + [item]
      ensures list == SickConditions ==> medicines == old(medicines)
      ensures list == Medicines ==> sickConditions == old(sickConditions)
      ensures queue == old(queue) && meta == old(meta) && employees == old(employees)
    {
      match list
      case SickConditions => sickConditions := sickConditions + [item];
      case Medicines => medicines := medicines + [item];
    }

    /** `deleteDoc` in an option collection: a no-op when the key is absent. */
    method DeleteOption(list: OptionList, id: string)
      modifies this
      ensures Options(list) == RemoveItem(old(Options(list)), id)
      ensures list == SickConditions ==> medicines == old(medicines)
      ensures list == Medicines ==> sickConditions == old(sickConditions)
      ensures queue == old(queue) && meta == old(meta) && employees == old(employees)
    {
      match list
      case SickConditions => sickConditions := RemoveItem(sickConditions, id);
      case Medicines => medicines := RemoveItem(medicines, id);
    }
  }

  /** `items` without the entry whose key is `id`. */
  function RemoveItem(items: seq<Item>, id: string): seq<Item> {
    if items == [] then []
    else (if items[0].id == id then [] else [items[0]]) + RemoveItem(items[1..], id)
  }
}
