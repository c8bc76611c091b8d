/**
 * The option list editor: the sick-condition and medicine lists, the ids
 * ticked for deletion, adding a named entry and deleting the ticked ones.
 */
module ManageOptions {
  import opened JsStrings
  import opened Seqs
  import opened Store

  /** `prev.filter(x => x !== id)`. */
  function Exclude(sel: seq<string>, id: string): seq<string> {
    if sel == [] then [] else (if sel[0] == id then [] else [sel[0]]) + Exclude(sel[1..], id)
  }

  /** Excluding removes every occurrence of `id` and keeps every other id as often as before. */
  lemma {:induction false} ExcludeCount(sel: seq<string>, id: string)
    ensures multiset(Exclude(sel, id)) == multiset(sel)[id := 0]
    ensures id !in Exclude(sel, id)
  {
    if sel != [] {
      ExcludeCount(sel[1..], id);
      assert sel == [sel[0]] + sel[1..];
      assert multiset(sel) == multiset{sel[0]} + multiset(sel[1..]);
    }
  }

  /** The ids kept stay in their order. */
  lemma {:induction false} ExcludeOrder(sel: seq<string>, id: string)
    ensures IsSubseq(Exclude(sel, id), sel)
  {
    if sel != [] {
      var rest := Exclude(sel[1..], id);
      ExcludeOrder(sel[1..], id);
      assert sel == [sel[0]] + sel[1..];
      if sel[0] == id {
        assert Exclude(sel, id) == [] + rest == rest;
        SubseqOfLonger(rest, [sel[0]], sel[1..]);
      } else {
        SubseqCons(sel[0], rest, sel[1..]);
      }
    }
  }

  lemma {:induction false} ExcludeAbsent(sel: seq<string>, id: string)
    requires id !in sel
    ensures Exclude(sel, id) == sel
  {
    if sel != [] {
      ExcludeAbsent(sel[1..], id);
      assert [sel[0]] + sel[1..] == sel;
    }
  }

  lemma {:induction false} ExcludeAppend(a: seq<string>, b: seq<string>, id: string)
    ensures Exclude(a + b, id) == Exclude(a, id) + Exclude(b, id)
  {
    if a == [] {
      assert a + b == b;
    } else {
      var h := if a[0] == id then [] else [a[0]];
      calc {
        Exclude(a + b, id);
        { assert (a + b)[0] == a[0]; }
        h + Exclude((a + b)[1..], id);
        { assert (a + b)[1..] == a[1..] + b; }
        h + Exclude(a[1..] + b, id);
        { ExcludeAppend(a[1..], b, id); }
        h + (Exclude(a[1..], id) + Exclude(b, id));
        (h + Exclude(a[1..], id)) + Exclude(b, id);
        Exclude(a, id) + Exclude(b, id);
      }
    }
  }

  /** `prev.includes(id) ? prev.filter(x => x !== id) : [...prev, id]`. */
  function Toggle(sel: seq<string>, id: string): seq<string> {
    if id in sel then Exclude(sel, id) else sel + [id]
  }

  /**
   * Toggling a ticked id drops every occurrence of it and keeps the others in
   * order; toggling an unticked one appends it; no other id changes.
   */
  lemma ToggleSpec(sel: seq<string>, id: string)
    ensures id in Toggle(sel, id) <==> id !in sel
    ensures id in sel ==> multiset(Toggle(sel, id)) == multiset(sel)[id := 0] && IsSubseq(Toggle(sel, id), sel)
    ensures id !in sel ==> Toggle(sel, id) == sel + [id]
    ensures forall x | x != id :: multiset(Toggle(sel, id))[x] == multiset(sel)[x]
  {
    ExcludeCount(sel, id);
    ExcludeOrder(sel, id);
  }

  /** Toggling an unticked id twice restores the selection. */
  lemma ToggleTwice(sel: seq<string>, id: string)
    requires id !in sel
    ensures Toggle(Toggle(sel, id), id) == sel
  {
    ExcludeAppend(sel, [id], id);
    ExcludeAbsent(sel, id);
    assert Exclude([id], id) == [] + Exclude([], id);
  }

  /** The list after an add: unchanged for a blank name, else with `{id: newId, name: input}` appended. */
  function AddItem(items: seq<Item>, input: string, newId: string): seq<Item> {
    if Trim(input) == [] then items else items + [Item(newId, input)]
  }

  /** A blank name adds nothing; any other name adds exactly one entry, at the end, with the name as typed. */
  lemma AddItemSpec(items: seq<Item>, input: string, newId: string)
    ensures IsBlank(input) ==> AddItem(items, input, newId) == items
    ensures !IsBlank(input) ==>
              |AddItem(items, input, newId)| == |items| + 1
              && AddItem(items, input, newId)[..|items|] == items
              && AddItem(items, input, newId)[|items|] == Item(newId, input)
  {
  }

  /** `items.filter(it => !ids.includes(it.id))`. */
  function WithoutIds(items: seq<Item>, ids: seq<string>): seq<Item> {
    if items == [] then []
    else (if items[0].id in ids then [] else [items[0]]) + WithoutIds(items[1..], ids)
  }

  /** The filter keeps exactly the entries whose id is not ticked, in their order, and never grows the list. */
  lemma {:induction false} WithoutIdsSpec(items: seq<Item>, ids: seq<string>)
    ensures forall it :: it in WithoutIds(items, ids) <==> it in items && it.id !in ids
    ensures IsSubseq(WithoutIds(items, ids), items)
    ensures |WithoutIds(items, ids)| <= |items|
  {
    if items != [] {
      var rest := WithoutIds(items[1..], ids);
      WithoutIdsSpec(items[1..], ids);
      assert items == [items[0]] + items[1..];
      assert forall it | it in items :: it == items[0] || it in items[1..];
      if items[0].id in ids {
        assert WithoutIds(items, ids) == [] + rest == rest;
        SubseqOfLonger(rest, [items[0]], items[1..]);
      } else {
        SubseqCons(items[0], rest, items[1..]);
      }
    }
  }

  lemma {:induction false} WithoutNoIds(items: seq<Item>)
    ensures WithoutIds(items, []) == items
  {
    if items != [] {
      WithoutNoIds(items[1..]);
      assert [items[0]] + items[1..] == items;
    }
  }

  /** Deleting one more document after filtering is filtering by one more id: the delete loop builds the filter. */
  lemma {:induction false} RemoveAfterFilter(items: seq<Item>, ids: seq<string>, id: string)
    ensures RemoveItem(WithoutIds(items, ids), id) == WithoutIds(items, ids + [id])
  {
    if items != [] {
      RemoveAfterFilter(items[1..], ids, id);
      var rest := WithoutIds(items[1..], ids);
      assert items[0].id in ids + [id] <==> items[0].id in ids || items[0].id == id;
      if items[0].id in ids {
        assert WithoutIds(items, ids) == rest;
      } else {
        var w := [items[0]] + rest;
        assert WithoutIds(items, ids) == w;
        assert w[0] == items[0] && w[1..] == rest;
        assert RemoveItem(w, id) == (if items[0].id == id then [] else [items[0]]) + RemoveItem(rest, id);
      }
    }
  }

  /** The editor's lists, their add inputs and the ticked ids. */
  class OptionsEditor {
    const db: ClinicDb
    var sickConditions: seq<Item>
    var medicines: seq<Item>
    var newCondition: string
    var newMedicine: string
    var selectedConditions: seq<string>
    var selectedMedicines: seq<string>

    function Items(list: OptionList): seq<Item>
      reads this
    {
      match list
      case SickConditions => sickConditions
      case Medicines => medicines
    }

    function Selected(list: OptionList): seq<string>
      reads this
    {
      match list
      case SickConditions => selectedConditions
      case Medicines => selectedMedicines
    }

    function Input(list: OptionList): string
      reads this
    {
      match list
      case SickConditions => newCondition
      case Medicines => newMedicine
    }

    /** The lists on screen are the stored collections. */
    ghost predicate InSync()
      reads this, db
    {
      sickConditions == db.sickConditions && medicines == db.medicines
    }

    /** Mounting: both collections are read; nothing is ticked or typed. */
    constructor (db: ClinicDb)
      ensures this.db == db && InSync()
      ensures newCondition == [] && newMedicine == []
      ensures selectedConditions == [] && selectedMedicines == []
    {
      this.db := db;
      sickConditions := db.sickConditions;
      medicines := db.medicines;
      newCondition := [];
      newMedicine := [];
      selectedConditions := [];
      selectedMedicines := [];
    }

    /** An add input's `onChange`. */
    method SetInput(list: OptionList, s: string)
      modifies this
      ensures Input(list) == s
      ensures list == SickConditions ==> newMedicine == old(newMedicine)
      ensures list == Medicines ==> newCondition == old(newCondition)
      ensures sickConditions == old(sickConditions) && medicines == old(medicines)
      ensures selectedConditions == old(selectedConditions) && selectedMedicines == old(selectedMedicines)
    {
      match list
      case SickConditions => newCondition := s;
      case Medicines => newMedicine := s;
    }

    /** `handleToggleConditionSelection` / `handleToggleMedicineSelection`. */
    method ToggleSelection(list: OptionList, id: string)
      modifies this
      ensures Selected(list) == Toggle(old(Selected(list)), id)
      ensures list == SickConditions ==> selectedMedicines == old(selectedMedicines)
      ensures list == Medicines ==> selectedConditions == old(selectedConditions)
      ensures sickConditions == old(sickConditions) && medicines == old(medicines)
      ensures newCondition == old(newCondition) && newMedicine == old(newMedicine)
    {
      match list
      case SickConditions => selectedConditions := Toggle(selectedConditions, id);
      case Medicines => selectedMedicines := Toggle(selectedMedicines, id);
    }

    /**
     * `handleAddCondition` / `handleAddMedicine`: a blank name is ignored;
     * otherwise the name is stored under the key `newId` the database gives
     * it, appended to the list on screen, and the input cleared.
     */
    method Add(list: OptionList, newId: string)
      requires db.Valid()
      modifies this, db
      ensures db.Valid()
      ensures Items(list) == AddItem(old(Items(list)), old(Input(list)), newId)
      ensures db.Options(list) == AddItem(old(db.Options(list)), old(Input(list)), newId)
      ensures IsBlank(old(Input(list))) ==> Input(list) == old(Input(list))
      ensures !IsBlank(old(Input(list))) ==> Input(list) == []
      ensures old(InSync()) ==> InSync()
      ensures list == SickConditions ==> medicines == old(medicines) && newMedicine == old(newMedicine)
                                         && db.medicines == old(db.medicines)
      ensures list == Medicines ==> sickConditions == old(sickConditions) && newCondition == old(newCondition)
                                    && db.sickConditions == old(db.sickConditions)
      ensures selectedConditions == old(selectedConditions) && selectedMedicines == old(selectedMedicines)
      ensures db.queue == old(db.queue) && db.meta == old(db.meta) && db.employees == old(db.employees)
    {
      var input := Input(list);
      if Trim(input) == [] {
        return;
      }
      var item := Item(newId, input);
      db.AddOption(list, item);
      Append(list, item);
    }

    /** Appends `item` to the list on screen and clears that list's input. */
    method Append(list: OptionList, item: Item)
      modifies this
      ensures Items(list) == old(Items(list)) + [item] && Input(list) == []
      ensures list == SickConditions ==> medicines == old(medicines) && newMedicine == old(newMedicine)
      ensures list == Medicines ==> sickConditions == old(sickConditions) && newCondition == old(newCondition)
      ensures selectedConditions == old(selectedConditions) && selectedMedicines == old(selectedMedicines)
    {
      match list
      case SickConditions =>
        sickConditions := sickConditions + [item];
        newCondition := [];
      case Medicines =>
        medicines := medicines + [item];
        newMedicine := [];
    }

    /** Deletes the stored documents with the ticked ids of one list, one at a time. */
    method DeleteAll(list: OptionList, ids: seq<string>)
      requires db.Valid()
      modifies db
      ensures db.Valid()
      ensures db.Options(list) == WithoutIds(old(db.Options(list)), ids)
      ensures list == SickConditions ==> db.medicines == old(db.medicines)
      ensures list == Medicines ==> db.sickConditions == old(db.sickConditions)
      ensures db.queue == old(db.queue) && db.meta == old(db.meta) && db.employees == old(db.employees)
    {
      WithoutNoIds(db.Options(list));
      for i := 0 to |ids|
        invariant db.Valid()
        invariant db.Options(list) == WithoutIds(old(db.Options(list)), ids[..i])
        invariant list == SickConditions ==> db.medicines == old(db.medicines)
        invariant list == Medicines ==> db.sickConditions == old(db.sickConditions)
        invariant db.queue == old(db.queue) && db.meta == old(db.meta) && db.employees == old(db.employees)
      {
        RemoveAfterFilter(old(db.Options(list)), ids[..i], ids[i]);
        assert ids[..i + 1] == ids[..i] + [ids[i]];
        db.DeleteOption(list, ids[i]);
      }
      assert ids[..|ids|] == ids;
    }

    /**
     * `handleDeleteSelected`: for each list, the ticked documents are deleted,
     * the list on screen keeps the entries not ticked, and nothing stays ticked.
     */
    method DeleteSelected()
      requires db.Valid()
      modifies this, db
      ensures db.Valid()
      ensures db.sickConditions == WithoutIds(old(db.sickConditions), old(selectedConditions))
      ensures db.medicines == WithoutIds(old(db.medicines), old(selectedMedicines))
      ensures sickConditions == WithoutIds(old(sickConditions), old(selectedConditions))
      ensures medicines == WithoutIds(old(medicines), old(selectedMedicines))
      ensures selectedConditions == [] && selectedMedicines == []
      ensures old(InSync()) ==> InSync()
      ensures newCondition == old(newCondition) && newMedicine == old(newMedicine)
      ensures db.queue == old(db.queue) && db.meta == old(db.meta) && db.employees == old(db.employees)
    {
      DeleteAll(SickConditions, selectedConditions);
      sickConditions := WithoutIds(sickConditions, selectedConditions);
      selectedConditions := [];
      DeleteAll(Medicines, selectedMedicines);
      medicines := WithoutIds(medicines, selectedMedicines);
      selectedMedicines := [];
    }
  }
}
