/** The inventory ledger and hotbar reconciler of `InventoryUtils`.

    A player's inventory document holds stackable entries (an item id and an
    `owned` count), non-stackable entries (an item id and its instances, each
    with an instance id and a health value) and the hotbar, a fixed-length
    array of equip slots. Every lookup takes the FIRST entry whose id matches,
    as `List<T>.Find` does.

    The operations are stated twice: as functions on an `Inventory` value,
    which the lemmas talk about, and as the methods of `InventoryStore`, the
    stored document that each source routine reads, changes in place and
    writes back. */
module InventoryUtils {
  import opened Common

  /** The result codes of the ledger. */
  datatype InventoryUtilResult =
    | Success
    | NotEnoughItemsAvailable
    | ItemNotFoundInInv
    | InventoryCreated
    | NoSpecificError
    | UnstackableItemInstanceNotFound

  /** A stackable entry; its seen/unlocked timestamps are not modelled. */
  datatype StackableItem = StackableItem(id: Guid, owned: Int32, fragments: Int32)

  /** One instance of a non-stackable item; health is carried, never computed on. */
  datatype Instance = Instance(id: string, health: real)

  datatype NonStackableItem = NonStackableItem(id: Guid, instances: seq<Instance>)

  /** An occupied hotbar slot; `instanceId` is present for an equipped instance. */
  datatype HotbarSlot = HotbarSlot(id: Guid, count: Int32, instanceId: Option<string>)

  /** A hotbar: `None` is an empty (null) slot. */
  type Hotbar = seq<Option<HotbarSlot>>

  datatype Inventory = Inventory(
    stackableItems: seq<StackableItem>,
    nonStackableItems: seq<NonStackableItem>,
    hotbar: Hotbar)

  /** Health given to an instance added to the inventory. */
  const NewInstanceHealth: real := 100.0

  /** Fragments of a freshly created stackable entry. */
  const NewEntryFragments: Int32 := 1

  // ---------------------------------------------------------------------
  // First-match lookups (`List<T>.Find`)
  // ---------------------------------------------------------------------

  /** The ids of a list of entries, in order. */
  function Ids<T>(items: seq<T>, id: T -> Guid): (ids: seq<Guid>)
    ensures |ids| == |items| && forall j :: 0 <= j < |items| ==> ids[j] == id(items[j])
  {
    seq(|items|, j requires 0 <= j < |items| => id(items[j]))
  }

  function StackableIds(items: seq<StackableItem>): seq<Guid> {
    Ids(items, (e: StackableItem) => e.id)
  }

  function NonStackableIds(items: seq<NonStackableItem>): seq<Guid> {
    Ids(items, (e: NonStackableItem) => e.id)
  }

  function InstanceIds(instances: seq<Instance>): seq<string> {
    Ids(instances, (e: Instance) => e.id)
  }

  /** Position of the stackable entry `Find` returns for `itemId`, or -1. */
  function FindStackable(items: seq<StackableItem>, itemId: Guid): (k: int)
    ensures -1 <= k < |items|
    ensures k >= 0 ==> items[k].id == itemId && forall j :: 0 <= j < k ==> items[j].id != itemId
    ensures k < 0 <==> forall j :: 0 <= j < |items| ==> items[j].id != itemId
  {
    var ids := StackableIds(items);
    var k := IndexOf(ids, itemId);
    assert k >= 0 ==> forall j :: 0 <= j < k ==> ids[..k][j] == ids[j];
    assert k < 0 ==> forall j :: 0 <= j < |items| ==> ids[j] != itemId;
    k
  }

  /** Position of the non-stackable entry `Find` returns for `itemId`, or -1. */
  function FindNonStackable(items: seq<NonStackableItem>, itemId: Guid): (n: int)
    ensures -1 <= n < |items|
    ensures n >= 0 ==> items[n].id == itemId && forall j :: 0 <= j < n ==> items[j].id != itemId
    ensures n < 0 <==> forall j :: 0 <= j < |items| ==> items[j].id != itemId
  {
    var ids := NonStackableIds(items);
    var n := IndexOf(ids, itemId);
    assert n >= 0 ==> forall j :: 0 <= j < n ==> ids[..n][j] == ids[j];
    assert n < 0 ==> forall j :: 0 <= j < |items| ==> ids[j] != itemId;
    n
  }

  /** Position of the instance `Find` returns for `instanceId`, or -1. Stored
      instances always have an id, so a null (absent) id matches none. */
  function FindInstance(instances: seq<Instance>, instanceId: Option<string>): (i: int)
    ensures -1 <= i < |instances|
    ensures i >= 0 ==> instanceId == Some(instances[i].id)
                       && forall j :: 0 <= j < i ==> Some(instances[j].id) != instanceId
    ensures i < 0 <==> forall j :: 0 <= j < |instances| ==> Some(instances[j].id) != instanceId
  {
    if instanceId.None? then -1
    else
      var ids := InstanceIds(instances);
      var i := IndexOf(ids, instanceId.value);
      assert i >= 0 ==> forall j :: 0 <= j < i ==> ids[..i][j] == ids[j];
      assert i < 0 ==> forall j :: 0 <= j < |instances| ==> ids[j] != instanceId.value;
      i
  }

  // ---------------------------------------------------------------------
  // Ledger operations on an inventory value
  // ---------------------------------------------------------------------

  /** `instances.Remove(instances.Find(id))`: drops the first instance with that
      id and keeps the others in order; no match leaves the list as it is. */
  function RemoveInstance(instances: seq<Instance>, instanceId: Option<string>): (r: seq<Instance>)
    ensures var i := FindInstance(instances, instanceId);
            if i < 0 then r == instances
            else |r| == |instances| - 1 && r[..i] == instances[..i] && r[i..] == instances[i + 1..]
                 && multiset(r) + multiset{instances[i]} == multiset(instances)
  {
    var i := FindInstance(instances, instanceId);
    if i < 0 then instances
    else
      assert instances == instances[..i] + [instances[i]] + instances[i + 1..];
      instances[..i] + instances[i + 1..]
  }

  /** `b` differs from `a` at most in the `owned` count of stackable entry `k`. */
  ghost predicate OnlyOwnedChangedAt(a: Inventory, b: Inventory, k: int) {
    && 0 <= k < |a.stackableItems| == |b.stackableItems|
    && b.nonStackableItems == a.nonStackableItems
    && b.hotbar == a.hotbar
    && b.stackableItems[k].id == a.stackableItems[k].id
    && b.stackableItems[k].fragments == a.stackableItems[k].fragments
    && forall j :: 0 <= j < |a.stackableItems| && j != k ==> b.stackableItems[j] == a.stackableItems[j]
  }

  /** `b` differs from `a` at most in the instances of non-stackable entry `n`. */
  ghost predicate OnlyInstancesChangedAt(a: Inventory, b: Inventory, n: int) {
    && 0 <= n < |a.nonStackableItems| == |b.nonStackableItems|
    && b.stackableItems == a.stackableItems
    && b.hotbar == a.hotbar
    && b.nonStackableItems[n].id == a.nonStackableItems[n].id
    && forall j :: 0 <= j < |a.nonStackableItems| && j != n ==> b.nonStackableItems[j] == a.nonStackableItems[j]
  }

  /** `RemoveItemFromInv`: the result code and the inventory written back. */
  function RemoveItem(inv: Inventory, itemId: Guid, instanceId: Option<string>, count: Int32)
    : (out: (InventoryUtilResult, Inventory))
    ensures var k := FindStackable(inv.stackableItems, itemId);
            k >= 0 ==>
              if count > inv.stackableItems[k].owned then out == (NotEnoughItemsAvailable, inv)
              else
                && out.0 == Success
                && OnlyOwnedChangedAt(inv, out.1, k)
                && out.1.stackableItems[k].owned == Sub32(inv.stackableItems[k].owned, count)
                && (count >= 0 ==> 0 <= out.1.stackableItems[k].owned == inv.stackableItems[k].owned - count)
    ensures var n := FindNonStackable(inv.nonStackableItems, itemId);
            FindStackable(inv.stackableItems, itemId) < 0 && n >= 0 ==>
              && out.0 == Success
              && OnlyInstancesChangedAt(inv, out.1, n)
              && out.1.nonStackableItems[n].instances
                 == RemoveInstance(inv.nonStackableItems[n].instances, instanceId)
    ensures out.0 == ItemNotFoundInInv
            <==> itemId !in StackableIds(inv.stackableItems) && itemId !in NonStackableIds(inv.nonStackableItems)
    ensures out.0 == ItemNotFoundInInv ==> out.1 == inv
  {
    var k := FindStackable(inv.stackableItems, itemId);
    if k >= 0 then
      var entry := inv.stackableItems[k];
      if count > entry.owned then (NotEnoughItemsAvailable, inv)
      else (Success, inv.(stackableItems := inv.stackableItems[k := entry.(owned := Sub32(entry.owned, count))]))
    else
      var n := FindNonStackable(inv.nonStackableItems, itemId);
      if n >= 0 then
        var entry := inv.nonStackableItems[n];
        (Success, inv.(nonStackableItems := inv.nonStackableItems[n := entry.(instances := RemoveInstance(entry.instances, instanceId))]))
      else (ItemNotFoundInInv, inv)
  }

  /** `AddItemToInv`: the inventory written back (the result is always Success). */
  function AddItem(inv: Inventory, itemId: Guid, count: Int32, isStackable: bool, instanceId: Option<string>)
    : (out: (InventoryUtilResult, Inventory))
    ensures out.0 == Success && out.1.hotbar == inv.hotbar
    ensures var k := FindStackable(inv.stackableItems, itemId);
            isStackable && k >= 0 ==>
              OnlyOwnedChangedAt(inv, out.1, k)
              && out.1.stackableItems[k].owned == Add32(inv.stackableItems[k].owned, count)
    ensures isStackable && itemId !in StackableIds(inv.stackableItems) ==>
              && out.1.nonStackableItems == inv.nonStackableItems
              && out.1.stackableItems == inv.stackableItems + [StackableItem(itemId, count, NewEntryFragments)]
    ensures var n := FindNonStackable(inv.nonStackableItems, itemId);
            !isStackable && n >= 0 && instanceId.Some? ==>
              && OnlyInstancesChangedAt(inv, out.1, n)
              && out.1.nonStackableItems[n].instances
                 == inv.nonStackableItems[n].instances + [Instance(instanceId.value, NewInstanceHealth)]
    ensures !isStackable && (itemId !in NonStackableIds(inv.nonStackableItems) || instanceId.None?) ==>
              out.1 == inv
  {
    if !isStackable then
      var n := FindNonStackable(inv.nonStackableItems, itemId);
      if n >= 0 && instanceId.Some? then
        var entry := inv.nonStackableItems[n];
        var added := entry.(instances := entry.instances + [Instance(instanceId.value, NewInstanceHealth)]);
        (Success, inv.(nonStackableItems := inv.nonStackableItems[n := added]))
      else
        (Success, inv)
    else
      var k := FindStackable(inv.stackableItems, itemId);
      if k >= 0 then
        var entry := inv.stackableItems[k];
        (Success, inv.(stackableItems := inv.stackableItems[k := entry.(owned := Add32(entry.owned, count))]))
      else
        (Success, inv.(stackableItems := inv.stackableItems + [StackableItem(itemId, count, NewEntryFragments)]))
  }

  /** `GetItemCountFromInv`: the owned count of a stackable entry, 1 for a
      non-stackable entry, otherwise `ItemNotFoundInInv` with 0. */
  function GetItemCount(inv: Inventory, itemId: Guid): (out: (InventoryUtilResult, Int32))
    ensures out.0 == Success || out == (ItemNotFoundInInv, 0)
    ensures out.0 == Success
            <==> itemId in StackableIds(inv.stackableItems) || itemId in NonStackableIds(inv.nonStackableItems)
    ensures var k := FindStackable(inv.stackableItems, itemId);
            k >= 0 ==> out.1 == inv.stackableItems[k].owned
    ensures itemId !in StackableIds(inv.stackableItems) && itemId in NonStackableIds(inv.nonStackableItems)
            ==> out.1 == 1
  {
    var k := FindStackable(inv.stackableItems, itemId);
    if k >= 0 then (Success, inv.stackableItems[k].owned)
    else if FindNonStackable(inv.nonStackableItems, itemId) >= 0 then (Success, 1)
    else (ItemNotFoundInInv, 0)
  }

  /** `EditHealthOfItem`: reads the stored health of the instance, found in the
      first non-stackable entry with the item id; `newHealth` is not applied. */
  function EditHealthOfItem(inv: Inventory, itemId: Guid, instanceId: Option<string>, newHealth: real)
    : (out: (InventoryUtilResult, real))
    ensures out.0 == Success || out == (UnstackableItemInstanceNotFound, 0.0)
    ensures var n := FindNonStackable(inv.nonStackableItems, itemId);
            out.0 == Success
            <==> n >= 0 && FindInstance(inv.nonStackableItems[n].instances, instanceId) >= 0
    ensures var n := FindNonStackable(inv.nonStackableItems, itemId);
            out.0 == Success ==>
              out.1 == inv.nonStackableItems[n].instances[FindInstance(inv.nonStackableItems[n].instances, instanceId)].health
  {
    var n := FindNonStackable(inv.nonStackableItems, itemId);
    if n < 0 then (UnstackableItemInstanceNotFound, 0.0)
    else
      var i := FindInstance(inv.nonStackableItems[n].instances, instanceId);
      if i < 0 then (UnstackableItemInstanceNotFound, 0.0)
      else (Success, inv.nonStackableItems[n].instances[i].health)
  }

  // ---------------------------------------------------------------------
  // Hotbar reconciliation (`EditHotbar`)
  // ---------------------------------------------------------------------

  /** What the source compares of a slot: its item id and count (null for an
      empty slot); the instance id is not compared. */
  function Key(slot: Option<HotbarSlot>): Option<(Guid, Int32)> {
    match slot
    case None => None
    case Some(s) => Some((s.id, s.count))
  }

  /** The ledger call one slot causes; its result is ignored. */
  datatype Call =
    | NoCall
    | AddCall(itemId: Guid, count: Int32, isStackable: bool, instanceId: Option<string>)
    | RemoveCall(itemId: Guid, instanceId: Option<string>, count: Int32)

  /** The call `EditHotbar` issues for one slot going from `before` to `after`. */
  function SlotCall(before: Option<HotbarSlot>, after: Option<HotbarSlot>): (c: Call)
    ensures c.NoCall? <==> Key(before) == Key(after)
    ensures c.AddCall? <==> Key(before) != Key(after) && after.None?
    ensures c.AddCall? ==>
              && before.Some? && c.itemId == before.value.id
              && (c.isStackable <==> before.value.instanceId.None?)
              && (c.isStackable ==> c.count == before.value.count)
              && (!c.isStackable ==> c.instanceId == before.value.instanceId)
    ensures c.RemoveCall? ==>
              && after.Some? && c.itemId == after.value.id && c.instanceId == after.value.instanceId
              && c.count == if before.Some? then Sub32(after.value.count, before.value.count)
                            else after.value.count
  {
    if Key(after) == Key(before) then NoCall
    else if after.None? then
      var s := before.value;
      if s.instanceId.None? then AddCall(s.id, s.count, true, None)
      else AddCall(s.id, 1, false, s.instanceId)
    else if before.Some? then
      RemoveCall(after.value.id, after.value.instanceId, Sub32(after.value.count, before.value.count))
    else
      RemoveCall(after.value.id, after.value.instanceId, after.value.count)
  }

  /** The inventory written back by one call. */
  function ApplyCall(inv: Inventory, c: Call): (r: Inventory)
    ensures r.hotbar == inv.hotbar
    ensures c.NoCall? ==> r == inv
  {
    match c
    case NoCall => inv
    case AddCall(id, count, isStackable, instanceId) => AddItem(inv, id, count, isStackable, instanceId).1
    case RemoveCall(id, instanceId, count) => RemoveItem(inv, id, instanceId, count).1
  }

  /** The inventory after the calls of slots `0 .. n-1`, in slot order. */
  function ApplySlots(inv: Inventory, before: Hotbar, after: Hotbar, n: nat): Inventory
    requires n <= |before| && n <= |after|
  {
    if n == 0 then inv
    else ApplyCall(ApplySlots(inv, before, after, n - 1), SlotCall(before[n - 1], after[n - 1]))
  }

  /** How many slots the loop examines: `i < hotbar.Length - 1`. */
  function Examined(hotbar: Hotbar): (n: nat)
    ensures n <= |hotbar| && (|hotbar| > 0 ==> n == |hotbar| - 1)
  {
    if |hotbar| == 0 then 0 else |hotbar| - 1
  }

  /** The inventory `EditHotbar` stores: every examined slot's call applied in
      order, then the hotbar replaced by `newHotbar`. */
  function EditedInventory(inv: Inventory, newHotbar: Hotbar): (r: Inventory)
    requires Examined(inv.hotbar) <= |newHotbar|
    ensures r.hotbar == newHotbar
  {
    ApplySlots(inv, inv.hotbar, newHotbar, Examined(inv.hotbar)).(hotbar := newHotbar)
  }

  // ---------------------------------------------------------------------
  // The stored inventory document
  // ---------------------------------------------------------------------

  /** One player's stored inventory document; each routine reads it, changes
      it in memory and writes it back. */
  class InventoryStore {
    var stackableItems: seq<StackableItem>
    var nonStackableItems: seq<NonStackableItem>
    var hotbar: Hotbar

    /** The document as `ReadInventory` returns it. */
    function Document(): Inventory
      reads this
    {
      Inventory(stackableItems, nonStackableItems, hotbar)
    }

    constructor (inv: Inventory)
      ensures Document() == inv
    {
      stackableItems := inv.stackableItems;
      nonStackableItems := inv.nonStackableItems;
      hotbar := inv.hotbar;
    }

    method RemoveItemFromInv(itemIdToRemove: Guid, unstackableItemId: Option<string>, countToRemove: Int32)
      returns (r: InventoryUtilResult)
      modifies this
      ensures (r, Document()) == RemoveItem(old(Document()), itemIdToRemove, unstackableItemId, countToRemove)
    {
      var k := FindStackable(stackableItems, itemIdToRemove);
      if k >= 0 {
        var entry := stackableItems[k];
        if countToRemove > entry.owned {
          return NotEnoughItemsAvailable;
        }
        stackableItems := stackableItems[k := entry.(owned := Sub32(entry.owned, countToRemove))];
        return Success;
      }
      var n := FindNonStackable(nonStackableItems, itemIdToRemove);
      if n >= 0 {
        var entry := nonStackableItems[n];
        nonStackableItems := nonStackableItems[n := entry.(instances := RemoveInstance(entry.instances, unstackableItemId))];
        return Success;
      }
      return ItemNotFoundInInv;
    }

    method AddItemToInv(itemIdToAdd: Guid, count: Int32, isStackableItem: bool, instanceId: Option<string>)
      returns (r: InventoryUtilResult)
      modifies this
      ensures (r, Document()) == AddItem(old(Document()), itemIdToAdd, count, isStackableItem, instanceId)
    {
      if !isStackableItem {
        var n := FindNonStackable(nonStackableItems, itemIdToAdd);
        if n >= 0 && instanceId.Some? {
          var entry := nonStackableItems[n];
          nonStackableItems := nonStackableItems[n := entry.(instances := entry.instances + [Instance(instanceId.value, NewInstanceHealth)])];
        }
      } else {
        var k := FindStackable(stackableItems, itemIdToAdd);
        if k >= 0 {
          var entry := stackableItems[k];
          stackableItems := stackableItems[k := entry.(owned := Add32(entry.owned, count))];
        } else {
          stackableItems := stackableItems + [StackableItem(itemIdToAdd, count, NewEntryFragments)];
        }
      }
      return Success;
    }

    /** The body of `EditHotbar`'s loop for one slot going from `before` to
        `after`: the add or remove call it issues, whose result is ignored. */
    method ReconcileSlot(before: Option<HotbarSlot>, after: Option<HotbarSlot>)
      modifies this
      ensures Document() == ApplyCall(old(Document()), SlotCall(before, after))
    {
      if Key(after) != Key(before) {
        if after.None? {
          if before.value.instanceId.None? {
            var _ := AddItemToInv(before.value.id, before.value.count, true, None);
          } else {
            var _ := AddItemToInv(before.value.id, 1, false, before.value.instanceId);
          }
        } else {
          if before.Some? {
            var _ := RemoveItemFromInv(after.value.id, after.value.instanceId,
                                       Sub32(after.value.count, before.value.count));
          } else {
            var _ := RemoveItemFromInv(after.value.id, after.value.instanceId, after.value.count);
          }
        }
      }
    }

    /** Diffs the stored hotbar against `newHotbar` slot by slot (all but the
        last slot), issues the add/remove calls, then installs `newHotbar`. */
    method EditHotbar(newHotbar: Hotbar) returns (r: InventoryUtilResult, installed: Hotbar)
      requires Examined(hotbar) <= |newHotbar|
      modifies this
      ensures r == Success && installed == newHotbar
      ensures Document() == EditedInventory(old(Document()), newHotbar)
    {
      var oldHotbar := hotbar;
      var i := 0;
      while i < |oldHotbar| - 1
        invariant 0 <= i <= Examined(oldHotbar)
        invariant Document() == ApplySlots(old(Document()), oldHotbar, newHotbar, i)
        invariant hotbar == oldHotbar
      {
        ReconcileSlot(oldHotbar[i], newHotbar[i]);
        i := i + 1;
      }
      hotbar := newHotbar;
      return Success, newHotbar;
    }
  }

  // ---------------------------------------------------------------------
  // Properties
  // ---------------------------------------------------------------------

  /** Adding `count` of a stackable item and then removing the same count
      restores the inventory whenever the removal succeeds; it succeeds when
      the entry's count is non-negative and the sum does not overflow. */
  lemma AddThenRemoveRestores(inv: Inventory, itemId: Guid, count: Int32, instanceId: Option<string>)
    requires itemId in StackableIds(inv.stackableItems)
    ensures var added := AddItem(inv, itemId, count, true, None).1;
            var removed := RemoveItem(added, itemId, instanceId, count);
            && (removed.0 == Success ==> removed.1 == inv)
            && (var o := inv.stackableItems[FindStackable(inv.stackableItems, itemId)].owned;
                0 <= o && -0x8000_0000 <= o + count < 0x8000_0000 ==> removed.0 == Success)
  {
    var k := FindStackable(inv.stackableItems, itemId);
    var added := AddItem(inv, itemId, count, true, None).1;
    assert FindStackable(added.stackableItems, itemId) == k by {
      assert forall j :: 0 <= j < |added.stackableItems| ==> added.stackableItems[j].id == inv.stackableItems[j].id;
    }
    var removed := RemoveItem(added, itemId, instanceId, count);
    if removed.0 == Success {
      assert removed.1.stackableItems[k] == inv.stackableItems[k];
      assert removed.1.stackableItems == inv.stackableItems;
    }
  }

  /** Removing `count` (0 <= count <= owned) of a stackable item and adding it
      back restores the inventory. */
  lemma RemoveThenAddRestores(inv: Inventory, itemId: Guid, count: Int32, instanceId: Option<string>)
    requires itemId in StackableIds(inv.stackableItems)
    requires 0 <= count <= inv.stackableItems[FindStackable(inv.stackableItems, itemId)].owned
    ensures var removed := RemoveItem(inv, itemId, instanceId, count);
            removed.0 == Success && AddItem(removed.1, itemId, count, true, None).1 == inv
  {
    var k := FindStackable(inv.stackableItems, itemId);
    var removed := RemoveItem(inv, itemId, instanceId, count).1;
    assert FindStackable(removed.stackableItems, itemId) == k by {
      assert forall j :: 0 <= j < |removed.stackableItems| ==> removed.stackableItems[j].id == inv.stackableItems[j].id;
    }
    var back := AddItem(removed, itemId, count, true, None).1;
    assert back.stackableItems[k] == inv.stackableItems[k];
    assert back.stackableItems == inv.stackableItems;
  }

  /** Slots whose id and count match cause no call, so their inventory stays. */
  lemma {:induction false} MatchingSlotsChangeNothing(inv: Inventory, before: Hotbar, after: Hotbar, n: nat)
    requires n <= |before| && n <= |after|
    requires forall j :: 0 <= j < n ==> Key(before[j]) == Key(after[j])
    ensures ApplySlots(inv, before, after, n) == inv
  {
    if n > 0 {
      MatchingSlotsChangeNothing(inv, before, after, n - 1);
    }
  }

  /** Submitting the stored hotbar again leaves the inventory as it is. */
  lemma EditHotbarUnchangedIsNoOp(inv: Inventory)
    ensures EditedInventory(inv, inv.hotbar) == inv
  {
    MatchingSlotsChangeNothing(inv, inv.hotbar, inv.hotbar, Examined(inv.hotbar));
  }

  /** The calls of slots `0 .. n-1` depend only on those slots. */
  lemma {:induction false} ApplySlotsDependsOnPrefix(inv: Inventory, before: Hotbar, after: Hotbar, after': Hotbar, n: nat)
    requires n <= |before| && n <= |after| && n <= |after'|
    requires after[..n] == after'[..n]
    ensures ApplySlots(inv, before, after, n) == ApplySlots(inv, before, after', n)
  {
    if n > 0 {
      assert after[n - 1] == after[..n][n - 1] == after'[n - 1];
      assert after[..n - 1] == after[..n][..n - 1];
      assert after'[..n - 1] == after'[..n][..n - 1];
      ApplySlotsDependsOnPrefix(inv, before, after, after', n - 1);
    }
  }

  /** The last slot (index `Length - 1`) is never examined: two proposed
      hotbars that agree on every other slot lead to the same items. */
  lemma LastSlotNeverExamined(inv: Inventory, newHotbar: Hotbar, newHotbar': Hotbar)
    requires |inv.hotbar| > 0 && |newHotbar| == |newHotbar'| == |inv.hotbar|
    requires forall j :: 0 <= j < |inv.hotbar| - 1 ==> newHotbar[j] == newHotbar'[j]
    ensures EditedInventory(inv, newHotbar).stackableItems == EditedInventory(inv, newHotbar').stackableItems
    ensures EditedInventory(inv, newHotbar).nonStackableItems == EditedInventory(inv, newHotbar').nonStackableItems
  {
    var n := |inv.hotbar| - 1;
    assert newHotbar[..n] == newHotbar'[..n];
    ApplySlotsDependsOnPrefix(inv, inv.hotbar, newHotbar, newHotbar', n);
  }

  /** Consequently a change confined to the last slot (for instance an empty
      fifth slot becoming three of an item) moves no items at all. */
  lemma LastSlotChangeMovesNoItems(inv: Inventory, newHotbar: Hotbar)
    requires |inv.hotbar| > 0 && |newHotbar| == |inv.hotbar|
    requires forall j :: 0 <= j < |inv.hotbar| - 1 ==> newHotbar[j] == inv.hotbar[j]
    ensures EditedInventory(inv, newHotbar) == inv.(hotbar := newHotbar)
  {
    LastSlotNeverExamined(inv, newHotbar, inv.hotbar);
    EditHotbarUnchangedIsNoOp(inv);
  }

  /** Equipping `count` of a stackable item into an empty slot takes exactly
      `count` from its entry when enough is owned. */
  lemma EquipIntoEmptySlotTakesCount(inv: Inventory, slot: HotbarSlot)
    requires slot.id in StackableIds(inv.stackableItems)
    requires 0 <= slot.count <= inv.stackableItems[FindStackable(inv.stackableItems, slot.id)].owned
    ensures var k := FindStackable(inv.stackableItems, slot.id);
            var r := ApplyCall(inv, SlotCall(None, Some(slot)));
            OnlyOwnedChangedAt(inv, r, k)
            && r.stackableItems[k].owned == inv.stackableItems[k].owned - slot.count
  {
  }

  /** Lowering an equipped stackable count issues a removal of a negative
      delta, which hands the difference back to the entry. */
  lemma ShrinkingSlotReturnsDifference(inv: Inventory, before: HotbarSlot, after: HotbarSlot)
    requires before.id == after.id && -0x8000_0000 <= after.count - before.count < 0
    requires after.id in StackableIds(inv.stackableItems)
    requires var o := inv.stackableItems[FindStackable(inv.stackableItems, after.id)].owned;
             0 <= o && o + (before.count - after.count) < 0x8000_0000
    ensures var k := FindStackable(inv.stackableItems, after.id);
            var r := ApplyCall(inv, SlotCall(Some(before), Some(after)));
            OnlyOwnedChangedAt(inv, r, k)
            && r.stackableItems[k].owned == inv.stackableItems[k].owned + (before.count - after.count)
  {
  }

  /** Emptying a slot that held stackable items returns its count to the entry. */
  lemma ClearingSlotReturnsCount(inv: Inventory, before: HotbarSlot)
    requires before.instanceId.None?
    requires before.id in StackableIds(inv.stackableItems)
    ensures var k := FindStackable(inv.stackableItems, before.id);
            var r := ApplyCall(inv, SlotCall(Some(before), None));
            OnlyOwnedChangedAt(inv, r, k)
            && r.stackableItems[k].owned == Add32(inv.stackableItems[k].owned, before.count)
  {
  }

  /** Emptying a slot that held an instance re-adds that instance (with full
      health) to its entry, if the entry exists. */
  lemma ClearingSlotReturnsInstance(inv: Inventory, before: HotbarSlot)
    requires before.instanceId.Some?
    requires before.id in NonStackableIds(inv.nonStackableItems)
    ensures var n := FindNonStackable(inv.nonStackableItems, before.id);
            var r := ApplyCall(inv, SlotCall(Some(before), None));
            OnlyInstancesChangedAt(inv, r, n)
            && r.nonStackableItems[n].instances
               == inv.nonStackableItems[n].instances + [Instance(before.instanceId.value, NewInstanceHealth)]
  {
  }
}
