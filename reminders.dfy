/** The expiry-reminder sweep, as functions of the item list it starts from: which items are
    due on a given day, what a sweep sends and what it records. A dispatch that fails is an
    input (`failures`, the ids whose reminder the notification service rejects). */
module Reminders {
  import opened Wrappers
  import opened Seqs
  import opened Expiry
  import opened Items

  /** The day counts on which a reminder goes out. */
  const ReminderDays: seq<int> := [30, 15, 7]

  /** One reminder handed to the notification service: the item it is about, the name shown
      in its text and the day count it announces. */
  datatype Reminder = Reminder(itemId: ItemId, name: string, days: int)

  /** The reminder for `item`: its id, its name and the day count the text announces. For a
      due item that count is the trigger day it was caught on. */
  function ReminderFor(item: Item, today: Day): (r: Reminder)
    ensures r.itemId == item.id && r.name == item.name
    ensures Due(item, today) ==> r.days in {30, 15, 7} && today + r.days == item.expiryDate.value
  {
    Reminder(item.id, item.name, DaysRemaining(item.expiryDate, today))
  }

  /** An item is due when it is active, its reminders are on, it is 30, 15 or 7 days from
      expiry, and no reminder for it went out earlier the same day. */
  predicate Due(item: Item, today: Day)
    ensures Due(item, today) ==>
      item.expiryDate.Some? && item.expiryDate.value - today in {30, 15, 7}
  {
    && !item.archived
    && !item.notificationsDisabled
    && DaysRemaining(item.expiryDate, today) in ReminderDays
    && DaysRemaining(item.expiryDate, today) >= 0
    && item.lastNotificationDate != Some(today)
  }

  /** An item whose reminder is due and whose dispatch succeeds. */
  predicate Delivered(item: Item, today: Day, failures: set<ItemId>)
    ensures Delivered(item, today, failures) <==>
      && !item.archived
      && !item.notificationsDisabled
      && item.expiryDate.Some?
      && item.expiryDate.value - today in {30, 15, 7}
      && item.lastNotificationDate != Some(today)
      && item.id !in failures
  {
    Due(item, today) && item.id !in failures
  }

  function DeliveredOn(today: Day, failures: set<ItemId>): Item -> bool
  {
    (x: Item) => Delivered(x, today, failures)
  }

  /** The reminders a sweep over `items` sends, in list order. */
  function Sent(items: seq<Item>, today: Day, failures: set<ItemId>): (r: seq<Reminder>)
    ensures |r| <= |items|
  {
    var hit := Filter(items, DeliveredOn(today, failures));
    seq(|hit|, i requires 0 <= i < |hit| => ReminderFor(hit[i], today))
  }

  /** Records that a reminder for `id` went out on `today`. */
  function Stamped(items: seq<Item>, id: ItemId, today: Day): (r: seq<Item>)
    ensures |r| == |items|
    ensures forall i :: 0 <= i < |items| ==>
      r[i] == if items[i].id == id then items[i].(lastNotificationDate := Some(today)) else items[i]
    ensures forall i :: 0 <= i < |items| ==> r[i].id == items[i].id && r[i].archived == items[i].archived
  {
    seq(|items|, i requires 0 <= i < |items| =>
      if items[i].id == id then items[i].(lastNotificationDate := Some(today)) else items[i])
  }

  /** The item list after a sweep: each delivered item records today as its reminder day;
      nothing else changes. */
  function Swept(items: seq<Item>, today: Day, failures: set<ItemId>): (r: seq<Item>)
    ensures |r| == |items|
    ensures forall i :: 0 <= i < |items| ==>
      r[i] == if Delivered(items[i], today, failures)
              then items[i].(lastNotificationDate := Some(today)) else items[i]
  {
    seq(|items|, i requires 0 <= i < |items| =>
      if Delivered(items[i], today, failures)
      then items[i].(lastNotificationDate := Some(today)) else items[i])
  }

  /** A sweep keeps ids unique and archive stamps consistent. */
  lemma SweptValid(items: seq<Item>, today: Day, failures: set<ItemId>)
    ensures UniqueIds(items) ==> UniqueIds(Swept(items, today, failures))
    ensures ArchiveStamped(items) ==> ArchiveStamped(Swept(items, today, failures))
  {
  }

  /** One more turn of the sweep loop: stamping the next item (when it is delivered) extends
      the swept prefix by one. */
  lemma {:induction false} SweepStep(snap: seq<Item>, i: nat, today: Day, failures: set<ItemId>)
    requires UniqueIds(snap) && i < |snap|
    ensures var before := Swept(snap[..i], today, failures) + snap[i..];
      Swept(snap[..i + 1], today, failures) + snap[i + 1..] ==
        if Delivered(snap[i], today, failures) then Stamped(before, snap[i].id, today) else before
  {
    var before := Swept(snap[..i], today, failures) + snap[i..];
    var after := Swept(snap[..i + 1], today, failures) + snap[i + 1..];
    var wanted := if Delivered(snap[i], today, failures) then Stamped(before, snap[i].id, today) else before;
    assert |after| == |snap| == |wanted|;
    forall j | 0 <= j < |snap| ensures after[j] == wanted[j] {
      assert before[j] == if j < i then Swept(snap[..i], today, failures)[j] else snap[j];
      if j != i {
        assert before[j].id == snap[j].id != snap[i].id;
      }
    }
  }

  /** The reminders sent grow by the next item's reminder, if it is delivered. */
  lemma SentStep(snap: seq<Item>, i: nat, today: Day, failures: set<ItemId>)
    requires i < |snap|
    ensures Sent(snap[..i + 1], today, failures) ==
      Sent(snap[..i], today, failures) +
      (if Delivered(snap[i], today, failures) then [ReminderFor(snap[i], today)] else [])
  {
    var p := DeliveredOn(today, failures);
    assert snap[..i + 1] == snap[..i] + [snap[i]];
    FilterConcat(snap[..i], [snap[i]], p);
    FilterSingleton(snap[i], p);
  }

  /** One turn of the sweep loop, from a state where the first `i` items are done: stamping
      and reporting the next item when it is delivered gives the state with `i + 1` done. */
  lemma SweepAdvance(snap: seq<Item>, i: nat, today: Day, failures: set<ItemId>,
                     current: seq<Item>, sent: seq<Reminder>)
    requires UniqueIds(snap) && i < |snap|
    requires current == Swept(snap[..i], today, failures) + snap[i..]
    requires sent == Sent(snap[..i], today, failures)
    ensures Delivered(snap[i], today, failures) ==>
      Stamped(current, snap[i].id, today) == Swept(snap[..i + 1], today, failures) + snap[i + 1..] &&
      sent + [ReminderFor(snap[i], today)] == Sent(snap[..i + 1], today, failures)
    ensures !Delivered(snap[i], today, failures) ==>
      current == Swept(snap[..i + 1], today, failures) + snap[i + 1..] &&
      sent == Sent(snap[..i + 1], today, failures)
  {
    SweepStep(snap, i, today, failures);
    SentStep(snap, i, today, failures);
  }

  /** A failed dispatch touches nothing: the item stays as it was, and every other item ends
      the sweep as it would have had nothing failed. */
  lemma FailureIsolated(items: seq<Item>, today: Day, failures: set<ItemId>, i: nat)
    requires i < |items|
    ensures items[i].id in failures ==> Swept(items, today, failures)[i] == items[i]
    ensures items[i].id !in failures ==> Swept(items, today, failures)[i] == Swept(items, today, {})[i]
  {
  }

  /** After a sweep, the only items still due the same day are those whose dispatch failed. */
  lemma DueAfterSweep(items: seq<Item>, today: Day, failures: set<ItemId>, i: nat)
    requires i < |items|
    ensures Due(Swept(items, today, failures)[i], today) ==> items[i].id in failures
  {
  }

  /** A sweep in which every dispatch succeeded, run again on the same day, sends nothing and
      changes nothing, whatever fails the second time. */
  lemma {:induction false} SameDayRepeat(items: seq<Item>, today: Day, again: set<ItemId>)
    ensures var once := Swept(items, today, {});
      Sent(once, today, again) == [] && Swept(once, today, again) == once
  {
    var once := Swept(items, today, {});
    forall x | x in once ensures !DeliveredOn(today, again)(x) {
      var i :| 0 <= i < |once| && once[i] == x;
      DueAfterSweep(items, today, {}, i);
    }
    FilterNone(once, DeliveredOn(today, again));
  }

  /** An active item with reminders on, seven days from expiry and never reminded, gets the
      seven-day reminder and records today. */
  lemma SevenDaysAhead(item: Item, today: Day)
    requires !item.archived && !item.notificationsDisabled
    requires item.expiryDate == Some(today + 7) && item.lastNotificationDate.None?
    ensures Sent([item], today, {}) == [Reminder(item.id, item.name, 7)]
    ensures Swept([item], today, {}) == [item.(lastNotificationDate := Some(today))]
  {
    FilterSingleton(item, DeliveredOn(today, {}));
  }
}
