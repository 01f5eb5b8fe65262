/** The context and card tables of src/client/client.c: 64 slots each, ids of the form MAGIC + slot. */
module Handles {
  import opened Bytes

  const SLOTS := 64
  const CONTEXT_MAGIC: int := 0x8834_5289
  const CARD_MAGIC: int := 0x3834_5289

  predicate Magic(magic: int) { 0 < magic && magic + SLOTS < TWO_32 }

  /** The ids stored in the slots; 0 marks a free one. */
  type Ids = s: seq<int> | |s| == SLOTS witness seq(SLOTS, _ => 0)

  /** Slot i is free or holds its own id. */
  predicate Proper(ids: Ids, magic: int)
  {
    forall i :: 0 <= i < SLOTS ==> ids[i] == 0 || ids[i] == magic + i
  }

  /** Where an id leads: nowhere, to a slot in use, or to the element after the last. */
  datatype Found = Absent | At(slot: nat) | PastEnd

  /** The range check lets slot number 64 through. */
  function Find(ids: Ids, magic: int, id: int): (f: Found)
    ensures f.At? ==> f.slot < SLOTS
  {
    var rid := Wrap32(Wrap32(id) - magic);
    if rid > SLOTS then Absent
    else if rid == SLOTS then PastEnd
    else if ids[rid] == 0 then Absent
    else At(rid)
  }

  function LowestFree(ids: seq<int>): (i: nat)
    ensures i <= |ids|
    ensures i < |ids| ==> ids[i] == 0
    ensures forall j :: 0 <= j < i ==> ids[j] != 0
  {
    if ids == [] || ids[0] == 0 then 0 else 1 + LowestFree(ids[1..])
  }

  function Release(ids: Ids, magic: int, id: int): (ids': Ids)
  {
    var rid := Wrap32(Wrap32(id) - magic);
    if rid < SLOTS then ids[rid := 0] else ids
  }

  /** Looking an id up finds its own slot when the slot is in use, and nothing otherwise. */
  lemma FindExact(ids: Ids, magic: int, id: int)
    requires Magic(magic) && Proper(ids, magic)
    ensures forall i: nat :: Find(ids, magic, id) == At(i) <==> i < SLOTS && ids[i] != 0 && Wrap32(id) == ids[i]
    ensures Find(ids, magic, id) == PastEnd <==> Wrap32(id) == magic + SLOTS
  {
    var rid := Wrap32(Wrap32(id) - magic);
    assert rid == if Wrap32(id) >= magic then Wrap32(id) - magic else Wrap32(id) - magic + TWO_32;
  }

  /** The lookup stays inside the array for every id but one; with a check against 63 it would for all. */
  lemma FindInBounds(ids: Ids, magic: int, id: int)
    requires Magic(magic) && Proper(ids, magic)
    ensures !Find(ids, magic, id).PastEnd? <==> Wrap32(id - magic) != SLOTS
    ensures Find(ids, magic, magic + SLOTS) == PastEnd
  {
    FindExact(ids, magic, id);
    FindExact(ids, magic, magic + SLOTS);
    assert Wrap32(Wrap32(id) - magic) == Wrap32(id - magic) by {
      assert id - magic == Wrap32(id) - magic + TWO_32 * (id / TWO_32);
    }
  }

  /** No id is valid in both tables. */
  lemma TablesNeverMeet(contexts: Ids, cards: Ids, id: int)
    requires Proper(contexts, CONTEXT_MAGIC) && Proper(cards, CARD_MAGIC)
    ensures !(Find(contexts, CONTEXT_MAGIC, id).At? && Find(cards, CARD_MAGIC, id).At?)
  {
    FindExact(contexts, CONTEXT_MAGIC, id);
    FindExact(cards, CARD_MAGIC, id);
    var i, j := Find(contexts, CONTEXT_MAGIC, id), Find(cards, CARD_MAGIC, id);
    assert i.At? ==> contexts[i.slot] == Wrap32(id) == CONTEXT_MAGIC + i.slot;
    assert j.At? ==> cards[j.slot] == Wrap32(id) == CARD_MAGIC + j.slot;
  }

  // ---- one table, updated in place under its mutex

  datatype Slot<T> = Slot(id: int, data: T)

  class Table<T(0)> {
    const magic: int
    const blank: T
    // the memory that will follow the array; its id field is what slot number 64 reads and clears
    const beyond: Slot<T>
    // allocated by the first create: 64 slots, and the memory behind them
    var slots: array?<Slot<T>>

    constructor (magic: int, blank: T, beyond: Slot<T>)
      ensures this.magic == magic && this.blank == blank && this.beyond == beyond && slots == null
    {
      this.magic, this.blank, this.beyond, slots := magic, blank, beyond, null;
    }

    ghost predicate Valid()
      reads this, slots
    {
      && Magic(magic)
      && (slots != null ==> slots.Length == SLOTS + 1)
      && Proper(IdsOf(), magic)
    }

    ghost function IdsOf(): (ids: Ids)
      reads this, slots
    {
      if slots != null && slots.Length == SLOTS + 1 then
        seq(SLOTS, i requires 0 <= i < SLOTS && slots != null && slots.Length == SLOTS + 1 reads this, slots =>
          slots[i].id)
      else seq(SLOTS, _ => 0)
    }

    /** Data of a slot; memset to zero before its first use. */
    ghost function DataOf(i: nat): (d: T)
      requires i < SLOTS
      reads this, slots
    {
      if slots != null && slots.Length == SLOTS + 1 then slots[i].data else blank
    }

    /** The id in the memory behind the array. */
    ghost function Beyond(): (id: int)
      reads this, slots
    {
      if slots != null && slots.Length == SLOTS + 1 then slots[SLOTS].id else beyond.id
    }

    /** pp_findContext, pp_findCard: one id is looked up behind the array. */
    method FindSlot(id: int, locked: bool) returns (slot: int)
      requires Valid()
      ensures -1 <= slot <= SLOTS
      ensures locked ==>
                (0 <= slot < SLOTS <==> exists i :: 0 <= i < SLOTS && IdsOf()[i] != 0 && IdsOf()[i] == Wrap32(id))
      ensures 0 <= slot < SLOTS ==> slots != null && IdsOf()[slot] == Wrap32(id) == magic + slot
      ensures slot == SLOTS <==> locked && slots != null && Wrap32(id) == magic + SLOTS && Beyond() != 0
      ensures !locked ==> slot == -1
    {
      FindExact(IdsOf(), magic, id);
      FindInBounds(IdsOf(), magic, id);
      if !locked || slots == null {
        return -1;
      }
      var rid := Wrap32(Wrap32(id) - magic);
      if rid > SLOTS || slots[rid].id == 0 {
        return -1;
      }
      return rid;
    }

    /**
     * pp_createContext, pp_createCard: the lowest free slot gets its id; `store` gives the slot its new
     * data. Fails exactly without the lock, without memory for the first allocation, or when full.
     */
    method Create(store: T -> T, locked: bool, memory: bool) returns (slot: int)
      requires Valid()
      modifies this, slots
      ensures Valid() && (slots == old(slots) || fresh(slots))
      ensures -1 <= slot < SLOTS
      ensures slot == -1 <==>
                !locked || (old(slots) == null && !memory) || forall i :: 0 <= i < SLOTS ==> old(IdsOf())[i] != 0
      ensures slot >= 0 ==>
                && slot == LowestFree(old(IdsOf()))
                && IdsOf() == old(IdsOf())[slot := magic + slot]
                && DataOf(slot) == store(old(DataOf(slot)))
      ensures slot == -1 ==> IdsOf() == old(IdsOf())
      ensures Beyond() == old(Beyond())
      ensures forall i :: 0 <= i < SLOTS && i != slot ==> DataOf(i) == old(DataOf(i))
    {
      if !locked {
        return -1;
      }
      if slots == null {
        if !memory {
          return -1;
        }
        slots := new Slot<T>[SLOTS + 1](i => if i < SLOTS then Slot(0, blank) else beyond);
        assert IdsOf() == old(IdsOf());
      }
      ghost var ids := IdsOf();
      var i := 0;
      while i < SLOTS && slots[i].id != 0
        invariant 0 <= i <= SLOTS
        invariant forall j :: 0 <= j < i ==> ids[j] != 0
      {
        i := i + 1;
      }
      if i == SLOTS {
        return -1;
      }
      assert ids == old(IdsOf()) && ids[i] == 0 && LowestFree(ids) == i;
      slots[i] := Slot(magic + i, store(slots[i].data));
      assert IdsOf() == ids[i := magic + i];
      return i;
    }

    /**
     * pp_releaseContext, pp_releaseCard: one id clears the memory behind the array, others without a slot are
     * ignored.
     */
    method ReleaseSlot(id: int, locked: bool)
      requires Valid()
      modifies slots
      ensures Valid()
      ensures IdsOf() == if locked then Release(old(IdsOf()), magic, id) else old(IdsOf())
      ensures Beyond() == if locked && slots != null && Wrap32(id) == magic + SLOTS then 0 else old(Beyond())
      ensures forall i :: 0 <= i < SLOTS ==> DataOf(i) == old(DataOf(i))
    {
      FindInBounds(IdsOf(), magic, id);
      FindExact(IdsOf(), magic, id);
      if !locked {
        return;
      }
      if slots == null {
        assert Release(IdsOf(), magic, id) == IdsOf();
        return;
      }
      var rid := Wrap32(Wrap32(id) - magic);
      if rid > SLOTS {
        return;
      }
      ghost var ids := IdsOf();
      slots[rid] := slots[rid].(id := 0);
      assert IdsOf() == if rid < SLOTS then ids[rid := 0] else ids;
    }

    /** What a thread stores in its own slot outside the lock. */
    method Store(slot: nat, data: T)
      requires Valid() && slots != null && slot < SLOTS
      modifies slots
      ensures Valid() && IdsOf() == old(IdsOf())
      ensures DataOf(slot) == data
      ensures forall i :: 0 <= i < SLOTS && i != slot ==> DataOf(i) == old(DataOf(i))
    {
      ghost var ids := IdsOf();
      slots[slot] := slots[slot].(data := data);
      assert IdsOf() == ids;
    }
  }
}
