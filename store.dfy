/** The app's state: the item list, the two tag registries, the reminder switch and the
    list view's filter and sort settings, with the handlers that change them. */
module Store {
  import opened Wrappers
  import opened Seqs
  import opened Expiry
  import opened Items
  import opened Transitions
  import opened Query
  import opened Reminders

  const DefaultCategories: seq<string> := ["食品", "日用品", "药品", "美妆", "清洁"]

  const DefaultLocations: seq<string> := ["冰箱", "储物柜", "浴室", "主卧", "玄关"]

  /** Why the add/edit form refused a submission. */
  datatype SubmitError = BlankName

  /** With unique ids, an item is stored at most once. */
  lemma {:induction false} UniqueIdsOnce(items: seq<Item>, x: Item)
    requires UniqueIds(items)
    ensures multiset(items)[x] <= 1
  {
    if items != [] {
      var tail := items[1..];
      assert UniqueIds(tail) by {
        forall i, j | 0 <= i < |tail| && 0 <= j < |tail| && tail[i].id == tail[j].id ensures i == j {
          assert items[i + 1].id == items[j + 1].id;
        }
      }
      UniqueIdsOnce(tail, x);
      assert items == [items[0]] + tail;
      if x == items[0] && x in tail {
        OtherIdInTail(items, x);
      }
    }
  }

  class Inventory {
    var items: seq<Item>
    var categories: seq<string>
    var locations: seq<string>
    var notificationsEnabled: bool
    var filters: FilterState
    var sortConfig: SortConfig

    /** Ids are unique, archive stamps match the archived flag, registries have no repeats. */
    ghost predicate Valid()
      reads this
    {
      UniqueIds(items) && ArchiveStamped(items) && NoDuplicates(categories) && NoDuplicates(locations)
    }

    constructor ()
      ensures Valid()
      ensures items == [] && categories == DefaultCategories && locations == DefaultLocations
      ensures notificationsEnabled && filters == DefaultFilters && sortConfig == DefaultSort
    {
      items := [];
      categories := DefaultCategories;
      locations := DefaultLocations;
      notificationsEnabled := true;
      filters := DefaultFilters;
      sortConfig := DefaultSort;
    }

    /** The add/edit form's submit. A blank name is refused and nothing changes. Otherwise the
        category and location are registered, and either the item `editing` takes the form's
        fields or a new item with `freshId` is appended. */
    method Submit(form: ItemForm, editing: Option<ItemId>, freshId: ItemId, now: Instant)
      returns (result: Result<(), SubmitError>)
      requires Valid()
      requires editing.None? ==> IdFree(items, freshId)
      modifies this
      ensures Valid()
      ensures Blank(form.name) ==>
        (result == Failure(BlankName) &&
         items == old(items) && categories == old(categories) && locations == old(locations))
      ensures !Blank(form.name) ==>
        (result == Success(()) &&
         categories == Registered(old(categories), form.category) &&
         locations == Registered(old(locations), form.location) &&
         items == match editing
           case Some(id) => Edited(old(items), id, form)
           case None => Created(old(items), form, freshId, now))
      ensures notificationsEnabled == old(notificationsEnabled)
      ensures filters == old(filters) && sortConfig == old(sortConfig)
    {
      if Blank(form.name) {
        return Failure(BlankName);
      }
      categories := Registered(categories, form.category);
      locations := Registered(locations, form.location);
      match editing {
        case Some(id) => items := Edited(items, id, form);
        case None => items := Created(items, form, freshId, now);
      }
      result := Success(());
    }

    /** Deletes every item with this id; an unknown id changes nothing. */
    method Delete(id: ItemId)
      requires Valid()
      modifies this
      ensures Valid()
      ensures items == Deleted(old(items), id)
      ensures categories == old(categories) && locations == old(locations)
      ensures notificationsEnabled == old(notificationsEnabled)
      ensures filters == old(filters) && sortConfig == old(sortConfig)
    {
      DeletedValid(items, id);
      items := Deleted(items, id);
    }

    /** One press of the +1/-1 stepper. A result of zero changes nothing and returns the
        archive prompt, to be answered through `AnswerArchivePrompt`. */
    method ChangeQuantity(id: ItemId, delta: int) returns (prompt: Option<ArchivePrompt>)
      requires Valid()
      modifies this
      ensures Valid()
      ensures items == StepQuantity(old(items), id, delta).items
      ensures prompt == StepQuantity(old(items), id, delta).prompt
      ensures categories == old(categories) && locations == old(locations)
      ensures notificationsEnabled == old(notificationsEnabled)
      ensures filters == old(filters) && sortConfig == old(sortConfig)
    {
      var step := StepQuantity(items, id, delta);
      items := step.items;
      prompt := step.prompt;
    }

    /** The archive prompt's two buttons: archive (quantity 0, archived at `now`) or cancel
        (quantity 1). */
    method AnswerArchivePrompt(prompt: ArchivePrompt, confirm: bool, now: Instant)
      requires Valid()
      modifies this
      ensures Valid()
      ensures items == Resolved(old(items), prompt, confirm, now)
      ensures categories == old(categories) && locations == old(locations)
      ensures notificationsEnabled == old(notificationsEnabled)
      ensures filters == old(filters) && sortConfig == old(sortConfig)
    {
      items := Resolved(items, prompt, confirm, now);
    }

    /** The archive page's restore button. */
    method Restore(id: ItemId)
      requires Valid()
      modifies this
      ensures Valid()
      ensures items == Restored(old(items), id)
      ensures categories == old(categories) && locations == old(locations)
      ensures notificationsEnabled == old(notificationsEnabled)
      ensures filters == old(filters) && sortConfig == old(sortConfig)
    {
      items := Restored(items, id);
    }

    /** The settings page's "add category" button. */
    method AddCategory(tag: string)
      requires Valid()
      modifies this
      ensures Valid()
      ensures categories == Registered(old(categories), tag)
      ensures items == old(items) && locations == old(locations)
      ensures notificationsEnabled == old(notificationsEnabled)
      ensures filters == old(filters) && sortConfig == old(sortConfig)
    {
      categories := Registered(categories, tag);
    }

    /** The settings page's category delete; items using the tag keep it. */
    method RemoveCategory(tag: string)
      requires Valid()
      modifies this
      ensures Valid()
      ensures categories == Unregistered(old(categories), tag)
      ensures items == old(items) && locations == old(locations)
      ensures notificationsEnabled == old(notificationsEnabled)
      ensures filters == old(filters) && sortConfig == old(sortConfig)
    {
      categories := Unregistered(categories, tag);
    }

    /** The settings page's "add location" button. */
    method AddLocation(tag: string)
      requires Valid()
      modifies this
      ensures Valid()
      ensures locations == Registered(old(locations), tag)
      ensures items == old(items) && categories == old(categories)
      ensures notificationsEnabled == old(notificationsEnabled)
      ensures filters == old(filters) && sortConfig == old(sortConfig)
    {
      locations := Registered(locations, tag);
    }

    /** The settings page's location delete; items using the tag keep it. */
    method RemoveLocation(tag: string)
      requires Valid()
      modifies this
      ensures Valid()
      ensures locations == Unregistered(old(locations), tag)
      ensures items == old(items) && categories == old(categories)
      ensures notificationsEnabled == old(notificationsEnabled)
      ensures filters == old(filters) && sortConfig == old(sortConfig)
    {
      locations := Unregistered(locations, tag);
    }

    /** The header's swap button. */
    method ToggleSortDirection()
      requires Valid()
      modifies this
      ensures Valid()
      ensures sortConfig == ToggledDirection(old(sortConfig))
      ensures items == old(items) && categories == old(categories) && locations == old(locations)
      ensures notificationsEnabled == old(notificationsEnabled) && filters == old(filters)
    {
      sortConfig := ToggledDirection(sortConfig);
    }

    /** The filter sheet's confirm button. */
    method ApplyFilters(f: FilterState, cfg: SortConfig)
      requires Valid()
      modifies this
      ensures Valid()
      ensures filters == f && sortConfig == cfg
      ensures items == old(items) && categories == old(categories) && locations == old(locations)
      ensures notificationsEnabled == old(notificationsEnabled)
    {
      filters := f;
      sortConfig := cfg;
    }

    /** The outcome of the permission request, or the settings page's reminder switch. */
    method SetNotificationsEnabled(on: bool)
      requires Valid()
      modifies this
      ensures Valid()
      ensures notificationsEnabled == on
      ensures items == old(items) && categories == old(categories) && locations == old(locations)
      ensures filters == old(filters) && sortConfig == old(sortConfig)
    {
      notificationsEnabled := on;
    }

    /** The main list on `today`: every active item that passes the filters, exactly once,
        sorted by the current key and direction, ties in store order. */
    function ProcessedItems(today: Day): (r: seq<Item>)
      reads this
      requires Valid()
      ensures forall x :: x in r <==> x in items && Shown(x, filters, today)
      ensures forall x :: x in r ==> multiset(r)[x] == 1
      ensures SortedBy(r, sortConfig)
      ensures forall k :: Ties(r, sortConfig.key, k) == Ties(Visible(items, filters, today), sortConfig.key, k)
    {
      var r := View(items, filters, sortConfig, today);
      ShownOnce(items, r);
      r
    }

    /** The header's counters on `today`. */
    function HeaderStats(today: Day): (s: Stats)
      reads this
      ensures s.total == |items|
      ensures s.expired + s.expiring <= s.total
    {
      StatsOf(items, today)
    }

    /** The reminder sweep on `today`. With reminders switched off it does nothing. Otherwise
        it walks the items as they were when it started; for each due item it asks the
        notification service to show the reminder and, if that succeeds, records today as
        the item's reminder day. A failed dispatch skips that item and the walk goes on. */
    method CheckAndSendExpiryNotifications(today: Day, failures: set<ItemId>) returns (sent: seq<Reminder>)
      requires Valid()
      modifies this
      ensures Valid()
      ensures !old(notificationsEnabled) ==> items == old(items) && sent == []
      ensures old(notificationsEnabled) ==>
        items == Swept(old(items), today, failures) && sent == Sent(old(items), today, failures)
      ensures categories == old(categories) && locations == old(locations)
      ensures notificationsEnabled == old(notificationsEnabled)
      ensures filters == old(filters) && sortConfig == old(sortConfig)
    {
      sent := [];
      if !notificationsEnabled {
        return;
      }
      var swept;
      swept, sent := Sweep(items, today, failures);
      SweptValid(items, today, failures);
      items := swept;
    }
  }

  /** The sweep's per-item decision: skip archived items, items with reminders off, items not
      30, 15 or 7 days from expiry and items already reminded today; otherwise hand the
      reminder to the notification service, whose answer is whether the id is not among
      `failures`. */
  method Dispatch(item: Item, today: Day, failures: set<ItemId>) returns (delivered: bool)
    ensures delivered == Delivered(item, today, failures)
  {
    delivered := false;
    if item.archived || item.notificationsDisabled {
      return;
    }
    var days := DaysRemaining(item.expiryDate, today);
    if days !in ReminderDays || days < 0 {
      return;
    }
    var remindedToday := item.lastNotificationDate.Some? && item.lastNotificationDate.value == today;
    if remindedToday {
      return;
    }
    // the notification service's answer
    delivered := item.id !in failures;
  }

  /** The walk behind the reminder sweep: over the items as they were when it started, each
      due item is handed to the notification service and, if that succeeds, its reminder
      day becomes `today`; a failed dispatch skips that item and the walk goes on. */
  method Sweep(snapshot: seq<Item>, today: Day, failures: set<ItemId>)
    returns (current: seq<Item>, sent: seq<Reminder>)
    requires UniqueIds(snapshot)
    ensures current == Swept(snapshot, today, failures)
    ensures sent == Sent(snapshot, today, failures)
  {
    current, sent := snapshot, [];
    var i := 0;
    assert snapshot[..0] == [] && snapshot[0..] == snapshot;
    while i < |snapshot|
      invariant 0 <= i <= |snapshot|
      invariant current == Swept(snapshot[..i], today, failures) + snapshot[i..]
      invariant sent == Sent(snapshot[..i], today, failures)
    {
      var item := snapshot[i];
      SweepAdvance(snapshot, i, today, failures, current, sent);
      var delivered := Dispatch(item, today, failures);
      if delivered {
        sent := sent + [ReminderFor(item, today)];
        current := Stamped(current, item.id, today);
      }
      i := i + 1;
    }
    assert snapshot[..i] == snapshot;
  }

  /** With unique ids, every item of the view occurs in it exactly once. */
  lemma ShownOnce(items: seq<Item>, r: seq<Item>)
    requires UniqueIds(items)
    requires forall x :: x in r ==> multiset(r)[x] == multiset(items)[x]
    ensures forall x :: x in r ==> multiset(r)[x] == 1
  {
    forall x | x in r ensures multiset(r)[x] == 1 {
      UniqueIdsOnce(items, x);
    }
  }
}
