/** The store's state transitions as functions of the old state: what each handler of the
    app does to the item list and to the category and location registries. The `Inventory`
    class applies them to its fields. */
module Transitions {
  import opened Wrappers
  import opened Seqs
  import opened Expiry
  import opened Items

  // ---------------------------------------------------------------- registries

  /** A registry after offering it `tag`: appended when non-empty and not yet present. */
  function Registered(tags: seq<string>, tag: string): (r: seq<string>)
    ensures forall t :: t in r <==> t in tags || (t == tag && tag != "")
    ensures |tags| <= |r| <= |tags| + 1 && r[..|tags|] == tags
    ensures NoDuplicates(tags) ==> NoDuplicates(r)
  {
    if tag != "" && tag !in tags then tags + [tag] else tags
  }

  /** A registry after removing `tag` (every occurrence); other tags keep their order. */
  function Unregistered(tags: seq<string>, tag: string): (r: seq<string>)
    ensures forall t :: t in r <==> t in tags && t != tag
    ensures NoDuplicates(tags) ==> NoDuplicates(r)
  {
    var keep := (t: string) => t != tag;
    if NoDuplicates(tags) then
      FilterNoDuplicates(tags, keep);
      Filter(tags, keep)
    else
      Filter(tags, keep)
  }

  // ---------------------------------------------------------------- submit

  /** The item list after an edit of `id`: that item takes the form's fields and keeps its id
      and creation time; every other item is unchanged. */
  function Edited(items: seq<Item>, id: ItemId, form: ItemForm): (r: seq<Item>)
    ensures |r| == |items|
    ensures forall i :: 0 <= i < |r| ==> r[i].id == items[i].id && r[i].createdAt == items[i].createdAt
    ensures forall i :: 0 <= i < |r| && items[i].id != id ==> r[i] == items[i]
    ensures forall i :: 0 <= i < |r| && items[i].id == id ==>
      r[i] == EditedItem(form, items[i].id, items[i].createdAt)
    ensures UniqueIds(items) ==> UniqueIds(r)
    ensures ArchiveStamped(items) ==> ArchiveStamped(r)
  {
    seq(|items|, i requires 0 <= i < |items| =>
      if items[i].id == id then EditedItem(form, items[i].id, items[i].createdAt) else items[i])
  }

  /** The item list after a create: one new item, with a fresh id, at the end. */
  function Created(items: seq<Item>, form: ItemForm, freshId: ItemId, now: Instant): (r: seq<Item>)
    ensures |r| == |items| + 1 && r[..|items|] == items
    ensures r[|items|] == NewItem(form, freshId, now)
    ensures r[|items|].id == freshId && r[|items|].createdAt == now && !r[|items|].notificationsDisabled
    ensures UniqueIds(items) && IdFree(items, freshId) ==> UniqueIds(r)
    ensures ArchiveStamped(items) ==> ArchiveStamped(r)
  {
    items + [NewItem(form, freshId, now)]
  }

  /** Editing a freshly created item keeps the id and creation time it was given. */
  lemma EditKeepsIdentity(items: seq<Item>, form: ItemForm, edit: ItemForm, freshId: ItemId, now: Instant)
    requires IdFree(items, freshId)
    ensures var r := Edited(Created(items, form, freshId, now), freshId, edit);
      |r| == |items| + 1 && r[..|items|] == items &&
      r[|items|] == EditedItem(edit, freshId, now)
  {
  }

  // ---------------------------------------------------------------- delete

  /** The item list after deleting `id`: every item with that id is gone, the rest stay in order. */
  function Deleted(items: seq<Item>, id: ItemId): (r: seq<Item>)
    ensures forall x :: x in r <==> x in items && x.id != id
    ensures IdFree(r, id)
  {
    Filter(items, (x: Item) => x.id != id)
  }

  /** Deleting keeps every other item exactly as often as before, and drops the deleted id. */
  lemma {:induction false} DeletedMultiplicity(items: seq<Item>, id: ItemId, x: Item)
    ensures multiset(Deleted(items, id))[x] == if x.id == id then 0 else multiset(items)[x]
  {
    FilterMultiplicity(items, (y: Item) => y.id != id, x);
  }

  /** Deleting keeps ids unique and archive stamps consistent. */
  lemma {:induction false} DeletedValid(items: seq<Item>, id: ItemId)
    requires UniqueIds(items) && ArchiveStamped(items)
    ensures UniqueIds(Deleted(items, id)) && ArchiveStamped(Deleted(items, id))
  {
    KeepUniqueIds(items, (y: Item) => y.id != id);
    var r := Deleted(items, id);
    forall i | 0 <= i < |r| ensures r[i].archived <==> r[i].archivedAt.Some? {
      assert r[i] in items;
    }
  }

  /** Filtering an item list keeps its ids unique. */
  lemma {:induction false} KeepUniqueIds(items: seq<Item>, p: Item -> bool)
    requires UniqueIds(items)
    ensures UniqueIds(Filter(items, p))
  {
    if items != [] {
      var tail := items[1..];
      assert UniqueIds(tail) by {
        forall i, j | 0 <= i < |tail| && 0 <= j < |tail| && tail[i].id == tail[j].id ensures i == j {
          assert items[i + 1].id == items[j + 1].id;
        }
      }
      KeepUniqueIds(tail, p);
      var rest := Filter(tail, p);
      var r := Filter(items, p);
      assert r == (if p(items[0]) then [items[0]] else []) + rest;
      if p(items[0]) {
        forall i, j | 0 <= i < |r| && 0 <= j < |r| && r[i].id == r[j].id ensures i == j {
          if i == 0 && j != 0 {
            OtherIdInTail(items, rest[j - 1]);
          } else if j == 0 && i != 0 {
            OtherIdInTail(items, rest[i - 1]);
          } else if i != 0 && j != 0 {
            assert r[i] == rest[i - 1] && r[j] == rest[j - 1];
          }
        }
      }
    }
  }

  /** With unique ids, nothing after the head shares the head's id. */
  lemma OtherIdInTail(items: seq<Item>, x: Item)
    requires UniqueIds(items) && |items| > 0 && x in items[1..]
    ensures x.id != items[0].id
  {
    var k :| 0 <= k < |items[1..]| && items[1..][k] == x;
    assert items[k + 1] == x;
  }

  // ---------------------------------------------------------------- quantity stepper

  /** The confirm/cancel question raised when the stepper would take an item to zero. */
  datatype ArchivePrompt = ArchivePrompt(itemId: ItemId)

  /** The outcome of one press of the stepper. */
  datatype QuantityStep = QuantityStep(items: seq<Item>, prompt: Option<ArchivePrompt>)

  /** `Math.max(0, x)`. */
  function ClampedQuantity(x: int): (q: int)
    ensures q >= 0 && q >= x && (q == x || q == 0)
  {
    if x > 0 then x else 0
  }

  /** True when the stepper takes some item with this id to zero. */
  predicate ReachesZero(items: seq<Item>, id: ItemId, delta: int)
    ensures ReachesZero(items, id, delta) ==>
      exists i :: 0 <= i < |items| && items[i].id == id && items[i].quantity + delta <= 0
    ensures IdFree(items, id) ==> !ReachesZero(items, id, delta)
  {
    exists i :: 0 <= i < |items| && items[i].id == id && ClampedQuantity(items[i].quantity + delta) == 0
  }

  /** One press of the +1/-1 stepper on `id`. A non-zero new quantity replaces the item's
      quantity; a zero leaves the item as it was and raises the archive prompt instead. */
  function StepQuantity(items: seq<Item>, id: ItemId, delta: int): (r: QuantityStep)
    ensures |r.items| == |items|
    ensures forall i :: 0 <= i < |items| && items[i].id != id ==> r.items[i] == items[i]
    ensures forall i :: 0 <= i < |items| && items[i].id == id ==>
      var q := ClampedQuantity(items[i].quantity + delta);
      r.items[i] == if q == 0 then items[i] else items[i].(quantity := q)
    ensures r.prompt == (if ReachesZero(items, id, delta) then Some(ArchivePrompt(id)) else None)
    ensures UniqueIds(items) ==> UniqueIds(r.items)
    ensures ArchiveStamped(items) ==> ArchiveStamped(r.items)
  {
    var next := seq(|items|, i requires 0 <= i < |items| =>
      var q := ClampedQuantity(items[i].quantity + delta);
      if items[i].id == id && q != 0 then items[i].(quantity := q) else items[i]);
    QuantityStep(next, if ReachesZero(items, id, delta) then Some(ArchivePrompt(id)) else None)
  }

  /** The answer to an archive prompt. Confirming archives the item at `now` with quantity 0;
      cancelling sets its quantity to 1, whatever it was before. */
  function Resolved(items: seq<Item>, prompt: ArchivePrompt, confirm: bool, now: Instant): (r: seq<Item>)
    ensures |r| == |items|
    ensures forall i :: 0 <= i < |items| && items[i].id != prompt.itemId ==> r[i] == items[i]
    ensures forall i :: 0 <= i < |items| && items[i].id == prompt.itemId ==>
      r[i] == if confirm then items[i].(quantity := 0, archived := true, archivedAt := Some(now))
              else items[i].(quantity := 1)
    ensures UniqueIds(items) ==> UniqueIds(r)
    ensures ArchiveStamped(items) ==> ArchiveStamped(r)
  {
    seq(|items|, i requires 0 <= i < |items| =>
      if items[i].id != prompt.itemId then items[i]
      else if confirm then items[i].(quantity := 0, archived := true, archivedAt := Some(now))
      else items[i].(quantity := 1))
  }

  /** Restoring an archived item: quantity 1, active again, archive time cleared. */
  function Restored(items: seq<Item>, id: ItemId): (r: seq<Item>)
    ensures |r| == |items|
    ensures forall i :: 0 <= i < |items| && items[i].id != id ==> r[i] == items[i]
    ensures forall i :: 0 <= i < |items| && items[i].id == id ==>
      r[i] == items[i].(quantity := 1, archived := false, archivedAt := None)
    ensures UniqueIds(items) ==> UniqueIds(r)
    ensures ArchiveStamped(items) ==> ArchiveStamped(r)
  {
    seq(|items|, i requires 0 <= i < |items| =>
      if items[i].id == id then items[i].(quantity := 1, archived := false, archivedAt := None)
      else items[i])
  }

  /** Pressing -1 on an item with quantity 1 raises the prompt and changes nothing yet;
      cancelling it leaves the list exactly as it was. */
  lemma {:induction false} LastUnitCancelled(items: seq<Item>, k: nat, now: Instant)
    requires UniqueIds(items) && k < |items| && items[k].quantity == 1
    ensures var step := StepQuantity(items, items[k].id, -1);
      step.items == items && step.prompt == Some(ArchivePrompt(items[k].id)) &&
      Resolved(step.items, step.prompt.value, false, now) == items
  {
    var id := items[k].id;
    assert ReachesZero(items, id, -1) by {
      assert ClampedQuantity(items[k].quantity - 1) == 0;
    }
    var step := StepQuantity(items, id, -1);
    forall i | 0 <= i < |items| ensures step.items[i] == items[i] {
      if items[i].id == id { assert i == k; }
    }
    var r := Resolved(step.items, ArchivePrompt(id), false, now);
    forall i | 0 <= i < |items| ensures r[i] == items[i] {
      if items[i].id == id { assert i == k; }
    }
  }

  /** For an active item, confirming the archive and then restoring it ends where cancelling
      would have: only its quantity changes, to 1. */
  lemma ConfirmThenRestore(items: seq<Item>, prompt: ArchivePrompt, now: Instant)
    requires ArchiveStamped(items)
    requires forall i :: 0 <= i < |items| && items[i].id == prompt.itemId ==> !items[i].archived
    ensures Restored(Resolved(items, prompt, true, now), prompt.itemId) == Resolved(items, prompt, false, now)
  {
  }
}
