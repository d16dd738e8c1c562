# HomeStock-Manager core in Dafny

HomeStock-Manager (囤货管家) is a household inventory app. It tracks items with a category,
a storage location, a quantity and an optional expiry date. Each item card shows how many
days remain and which band the item is in: expired, expiring (0 to 30 days), watch (31 to
90) or safe. The home list filters and sorts the active items. Items that reach quantity
zero can be archived and restored later. Whenever the item list or the reminder switch
changes, and every 24 hours besides, the app sweeps the items while reminders are enabled.
It sends a reminder for each active item with its own reminders on that is 30, 15 or 7 days
from expiry and was not reminded earlier that day. An in-app logger keeps the newest 500
entries and tells its subscribers after each successful save or clear; loading the stored log
tells nobody, and neither does a failed save or a failed removal.

This project models that core. The modules are:

- `Expiry` (`expiry.dfy`): the days-remaining arithmetic and the four bands.
- `Items` (`items.dfy`): the item record, the add/edit form and the list invariants.
- `Transitions` (`transitions.dfy`): what each handler does to the item list and to the two
  tag registries, written as functions of the old state.
- `Ordering` (`ordering.dfy`): the `<` that the sort comparator applies.
- `Query` (`query.dfy`): the filtered, sorted home list and the header counters.
- `Reminders` (`reminders.dfy`): which items the reminder sweep notifies, and what it records.
- `Store` (`store.dfy`): class `Inventory`, holding the app's state. Its methods are the
  handlers, and it carries the reminder sweep loop.
- `Logging` (`logger.dfy`): class `Logger`, the bounded log and its listeners.
- `Seqs` and `Wrappers`: a generic order-preserving filter, and `Option`/`Result`.

Dates are day numbers, counted in days since 1970-01-01. The clock, the random id
generator, the notification service and the storage calls are parameters:

- `today` and `now` are the current day and instant.
- `freshId` is the id that a create assigns.
- `failures` is the set of ids whose reminder the notification service rejects.
- `saveOk` and `removeOk` say whether a storage write succeeded.

## Model

| member | source | states |
|---|---|---|
| Expiry.DaysRemaining | App.tsx:34-44 | An undated item reports 9999. A dated one reports 0 exactly on its expiry day and a negative count exactly after it; today plus the count is the expiry day. |
| Expiry.BandOf | App.tsx:47-53 | Each band is an interval of day counts: below 0 expired, 0-30 expiring, 31-90 watch, above 90 safe. |
| Expiry.Label | App.tsx:49-52 | Each of the four labels is shown for exactly one band. |
| Expiry.ExpiryStatus | App.tsx:47-53 | The status carries the day count and its band. An undated item is safe; a passed date is expired; the expiry day itself is expiring. |
| Expiry.BandBoundaries | App.tsx:47-53 | The band edges are -1/0, 30/31 and 90/91, and the 9999 sentinel is safe. |
| Expiry.UrgencyGrows | App.tsx:34-53 | As days pass, a dated item's band never becomes less urgent: safe, watch, expiring, expired, never back. |
| Items.EditedItem | App.tsx:306-311 | An edit keeps the stored id and creation time and takes every form field from the form: name, category, location, quantity, unit, date, image, note and reminder switch. It carries no archive state and no last reminder day. |
| Items.NewItem | App.tsx:313-320 | A created item has the fresh id and the creation instant. Name, category, location, quantity, unit, date, image and note come from the form. It is active, has no archive time and no last reminder day, and has reminders switched on whatever the form said. |
| Items.IsTrimmed | App.tsx:807 | Space, tab and newline are stripped by `trim`; no printable ASCII character is. |
| Items.Blank | App.tsx:807 | The empty name is blank, and a name holding any printable ASCII character is not. |
| Transitions.Registered | App.tsx:299-304 | A non-empty tag that is not present is appended; otherwise the registry is unchanged. The old registry is a prefix, and no duplicates appear. |
| Transitions.Unregistered | App.tsx:1228 | Exactly the other tags remain, and no duplicates appear. |
| Transitions.Edited | App.tsx:306-311 | Only items with the edited id change. They become the form's item over their own id and creation time. Unique ids and archive stamps are preserved. |
| Transitions.Created | App.tsx:313-320 | The new item, built from the form with the fresh id and `now`, is appended after all old items, which are unchanged. With a fresh id, ids stay unique. |
| Transitions.EditKeepsIdentity | App.tsx:306-320 | Editing a just-created item keeps the id and creation time that the create assigned. |
| Transitions.Deleted | App.tsx:372-384 | Exactly the items with other ids remain, and no item has the deleted id. |
| Transitions.DeletedMultiplicity | App.tsx:372-384 | Every other item keeps its exact number of occurrences. |
| Transitions.DeletedValid | App.tsx:372-384 | Deleting preserves unique ids and archive stamps. |
| Transitions.ClampedQuantity | App.tsx:401 | `Math.max(0, x)`: the result is non-negative, at least x, and equals x or 0. |
| Transitions.ReachesZero | App.tsx:400-404 | The prompt case arises only for an item with that id whose quantity plus the change is at most 0, and never for an unknown id. |
| Transitions.StepQuantity | App.tsx:398-447 | Other items are unchanged. A non-zero clamped quantity is written to the item. Reaching zero leaves the item as it was and raises the archive prompt; the prompt is raised exactly when some item with that id reaches zero. |
| Transitions.Resolved | App.tsx:405-438 | Confirming sets quantity 0, archived, and the archive time now. Cancelling sets quantity 1. Other items are unchanged, and the invariants hold. |
| Transitions.Restored | App.tsx:449-460 | The item gets quantity 1, becomes active and loses its archive time. Others are unchanged. |
| Transitions.LastUnitCancelled | App.tsx:398-447 | Pressing -1 at quantity 1 changes nothing and raises the prompt; cancelling then returns exactly the original list. |
| Transitions.ConfirmThenRestore | App.tsx:427-460 | For an active item, archiving then restoring gives the same list as cancelling. |
| Ordering.TextLessIrreflexive | App.tsx:494-495 | No name sorts strictly before itself. |
| Ordering.TextLessTransitive | App.tsx:494-495 | String `<` is transitive. |
| Ordering.TextLessTotal | App.tsx:494-495 | Any two different names are ordered one way or the other. |
| Ordering.LessStrictTotal | App.tsx:494-495 | The comparator's `<` on sort values is a strict total order. |
| Ordering.TextLess | App.tsx:494-495 | String `<`: a proper prefix sorts before the longer string, and no string sorts before itself or its own prefix. |
| Ordering.Less | App.tsx:494-495 | Numbers compare by magnitude and names by string `<`; a name never sorts below a number. |
| Query.ToggledDirection | App.tsx:518-522 | The swap button keeps the key and flips the direction. |
| Query.ToggleTwice | App.tsx:518-522 | Pressing swap twice restores the setting. |
| Query.PassesStatus | App.tsx:475-483 | "all" admits everything. "expired", "expiring" and "safe" admit exactly the expired band, the expiring band, and the watch and safe bands. |
| Query.StatusFilterBands | App.tsx:475-483 | Every day count passes exactly one of the expired, expiring and safe filters. |
| Query.LowerAscii | App.tsx:467 | `toLowerCase` on ASCII: each upper-case letter becomes its lower-case letter (code + 32), every other character is kept, and no upper-case ASCII letter remains. |
| Query.Includes | App.tsx:467 | `includes`: the empty search is found in every name, and so is any prefix of the name. A found search is no longer than the name, and all its characters occur in the name. |
| Query.Shown | App.tsx:464-483 | A shown item is active, and under a category or location filter it carries that tag. Under the default filters exactly the active items are shown. |
| Query.SortValue | App.tsx:486-492 | Only the name key gives text. By expiry date, a dated item gives its date and an undated one the 2099-12-31 substitute. |
| Query.Precedes | App.tsx:486-497 | The comparator puts `x` first: by expiry date, quantity or creation time, the smaller value first ascending and the larger first descending; by name, the string-`<` order or its reverse. |
| Query.Visible | App.tsx:464-484 | The filtered list holds exactly the stored items that are active and pass search, category, location and status. |
| Query.PrecedesOrder | App.tsx:486-497 | The comparator is a strict order in both directions. Items it does not order have equal sort values. |
| Query.Insert | App.tsx:486-497 | Insertion adds exactly one occurrence of the item. |
| Query.SortItems | App.tsx:486-497 | The sort returns a permutation of its input. |
| Query.InsertSorted | App.tsx:486-497 | Inserting into a sorted list keeps it sorted. |
| Query.SortItemsSorted | App.tsx:486-497 | The sort output is ordered by the comparator. |
| Query.InsertTies | App.tsx:486-497 | Insertion places the item after every item that ties with it. |
| Query.SortItemsStable | App.tsx:486-497 | For every sort value, the items with that value appear in store order. |
| Query.UndatedPlacement | App.tsx:489-492 | Sorted by date, an undated item (read as 2099-12-31) comes after every earlier dated item when ascending and before it when descending. |
| Query.View | App.tsx:462-500 | The home list holds exactly the shown items, each as often as it is stored, sorted, with ties in store order, and none archived. |
| Query.BandsPartition | App.tsx:502-509 | The four bands split the stored items between them. |
| Query.StatsOf | App.tsx:502-509 | Expired counts items below 0 days and expiring counts items at 0-30 days, archived ones included. Total is every stored item, and expired plus expiring is at most total. |
| Reminders.Sent | App.tsx:183-231 | A sweep sends no more reminders than there are items. |
| Reminders.Due | App.tsx:185-205 | A due item is dated and exactly 30, 15 or 7 days from its expiry date. |
| Reminders.ReminderFor | App.tsx:208-216 | The reminder names the item by id and name. For a due item it announces the trigger day (30, 15 or 7) that the item's date is away. |
| Reminders.Delivered | App.tsx:183-228 | An item is reminded exactly when it is active, its reminders are on, it is dated 30, 15 or 7 days ahead, it was not reminded today, and its dispatch succeeds. |
| Reminders.Swept | App.tsx:183-231 | After a sweep, each delivered item records today and every other item is unchanged. |
| Reminders.Stamped | App.tsx:222-226 | Only the items with the notified id record today as their reminder day. Ids and archive flags are unchanged. |
| Reminders.SweptValid | App.tsx:219-224 | A sweep preserves unique ids and archive stamps. |
| Reminders.SweepStep | App.tsx:183-231 | Stamping the next delivered item extends the swept prefix by one item. |
| Reminders.SentStep | App.tsx:183-231 | Each turn appends the next item's reminder exactly when it is delivered. |
| Reminders.SweepAdvance | App.tsx:183-231 | From a state where the first i items are done, handling item i (stamp and report it when delivered, otherwise skip it) gives the state where i + 1 are done. |
| Reminders.FailureIsolated | App.tsx:211-228 | A failed dispatch leaves its item untouched and does not affect any other item. |
| Reminders.DueAfterSweep | App.tsx:197-205 | After a sweep, an item is still due the same day only if its dispatch failed. |
| Reminders.SameDayRepeat | App.tsx:197-205 | After a fully successful sweep, a second sweep the same day sends nothing and changes nothing. |
| Reminders.SevenDaysAhead | App.tsx:183-224 | An active, never-reminded item 7 days from expiry gets a 7-day reminder and records today. |
| Store.ShownOnce | App.tsx:462-500 | With unique ids, every item in the home list appears exactly once. |
| Store.Inventory.constructor | App.tsx:56-73 | The store starts empty, with the default categories and locations, reminders on, no filters, and sorted by expiry date ascending. |
| Store.Inventory.Submit | App.tsx:293-324 | A blank name is refused and nothing changes (the form's check at App.tsx:806-810). Otherwise both tags are registered and the item is edited or created. Invariants are kept and the settings are unchanged. |
| Store.Inventory.Delete | App.tsx:372-384 | The items become the list without that id. Invariants are kept and nothing else changes. |
| Store.Inventory.ChangeQuantity | App.tsx:398-447 | The items and the returned prompt are those of one stepper press. Invariants are kept. |
| Store.Inventory.AnswerArchivePrompt | App.tsx:405-438 | The items take the confirm or cancel outcome. Invariants are kept. |
| Store.Inventory.Restore | App.tsx:449-460 | The items take the restored outcome. Invariants are kept. |
| Store.Inventory.AddCategory | App.tsx:1249-1255 | The category registry takes the tag when it is non-empty and new. Nothing else changes. |
| Store.Inventory.RemoveCategory | App.tsx:1222-1228 | The tag leaves the category registry, and items keep it. |
| Store.Inventory.AddLocation | App.tsx:1301-1307 | The location registry takes the tag when it is non-empty and new. |
| Store.Inventory.RemoveLocation | App.tsx:1274-1280 | The tag leaves the location registry. |
| Store.Inventory.ToggleSortDirection | App.tsx:516-522 | The direction flips and the key stays. |
| Store.Inventory.ApplyFilters | App.tsx:287-290 | Filters and sort setting are replaced together. |
| Store.Inventory.SetNotificationsEnabled | App.tsx:1324-1336 | The reminder switch takes the permission outcome or the user's choice. |
| Store.Inventory.ProcessedItems | App.tsx:462-500 | The home list is exactly the shown active items, each once, sorted, with ties in store order. |
| Store.Inventory.HeaderStats | App.tsx:502-509 | Total is the number of stored items and bounds expired plus expiring. |
| Store.Inventory.CheckAndSendExpiryNotifications | App.tsx:174-236 | With reminders off, nothing changes. Otherwise the items become the swept list and the reminders sent are those of the snapshot. The registries and settings are unchanged. |
| Store.Dispatch | App.tsx:184-206 | The per-item checks answer exactly whether the item is due and its dispatch succeeds. |
| Store.Sweep | App.tsx:183-231 | The loop over the snapshot produces the swept list and the sent reminders. |
| Logging.SliceFrom | logger.ts:38 | `slice(start)` returns a suffix. A negative start gives min(-start, n) entries; a start of 0 or more drops min(start, n) entries. |
| Logging.KeepNewest | logger.ts:68-73 | Trimming keeps the newest min(n, 500) entries, in order. |
| Logging.Recent | logger.ts:122-124 | The recent logs are a suffix of the log. |
| Logging.RecentCounts | logger.ts:122-124 | A positive count gives the newest count entries; 0 gives the whole log; a negative count drops the first -count entries. |
| Logging.KeepNewestBelowBound | logger.ts:37-39 | A log of at most 500 entries is kept whole, and trimming twice equals trimming once. |
| Logging.AppendToBounded | logger.ts:68-73 | Below the bound, an append keeps everything. At 500 entries it drops exactly the oldest. The new entry is always last. |
| Logging.IsError | logger.ts:118 | An entry is an error entry exactly when its level is ERROR; DEBUG, INFO and WARN entries never are. |
| Logging.ErrorEntries | logger.ts:117-119 | The error logs are exactly the entries with level ERROR. |
| Logging.ErrorEntriesCounted | logger.ts:117-119 | Each error entry keeps its number of occurrences, and nothing else appears. |
| Logging.Rendered | logger.ts:64-65 | A falsy argument is recorded as absent; any other argument is recorded as present. |
| Logging.MakeEntry | logger.ts:59-66 | The entry carries the given stamp, level, category and message. Data and error are present exactly when the argument is truthy, holding its rendered text. |
| Logging.Notify | logger.ts:51 | Every listener is called once, in subscription order, with the log. |
| Logging.IndexOf | logger.ts:142 | The result is -1 exactly when the listener is absent; otherwise it is its first position. |
| Logging.RemoveFirst | logger.ts:141-146 | When the listener is present, its first occurrence is cut out and the others keep their order; exactly one occurrence leaves the multiset. When it is absent, the list is unchanged. |
| Logging.SubscribeThenUnsubscribe | logger.ts:139-147 | Unsubscribing a new listener restores the list. For a listener that was already present, the earlier entry is removed, so it stays subscribed. |
| Logging.UnsubscribeTwice | logger.ts:141-146 | For a listener subscribed once, a second unsubscribe call is a no-op. |
| Logging.Logger.constructor | logger.ts:22-28 | A new logger has no entries and no listeners. |
| Logging.Logger.LoadLogs | logger.ts:31-44 | Parsed entries replace the log, trimmed to the newest 500. Missing or corrupt storage leaves the log unchanged. No listener is called. |
| Logging.Logger.AddLog | logger.ts:58-93 | The log becomes the trimmed old log plus the new entry. Listeners are called with the new log only if the save succeeds. |
| Logging.Logger.Debug | logger.ts:95-97 | Adds a DEBUG entry with the data and no error. |
| Logging.Logger.Info | logger.ts:99-101 | Adds an INFO entry with the data and no error. |
| Logging.Logger.Warn | logger.ts:103-105 | Adds a WARN entry with the data and no error. |
| Logging.Logger.Error | logger.ts:107-109 | Adds an ERROR entry. The third argument is the error and the fourth is the data. |
| Logging.Logger.GetLogs | logger.ts:112-114 | The log never holds more than 500 entries. |
| Logging.Logger.GetErrorLogs | logger.ts:117-119 | Exactly the ERROR entries, in log order, each as often as it is logged. |
| Logging.Logger.GetRecentLogs | logger.ts:122-124 | Gives the newest count entries (50 by default), the whole log for 0, and drops the first -count entries for a negative count. |
| Logging.Logger.ClearLogs | logger.ts:127-131 | The log is emptied. Listeners get an empty log only if the storage removal succeeds. |
| Logging.Logger.Subscribe | logger.ts:139-140 | The listener is appended, even if already present. |
| Logging.Logger.Unsubscribe | logger.ts:141-146 | The first occurrence of the listener is removed. |

## Left out

- Persistence: loading and saving items, categories and locations, with its debounce and error alerts. These are storage I/O. `LoadLogs` takes what storage held as a parameter.
- Notification permission and the real notification API. The permission outcome is the argument to `SetNotificationsEnabled`. A dispatch's success is the `failures` parameter. The title, body and sound of a reminder are reduced to (item id, name, day count).
- Time: JavaScript `Date` parsing, local-midnight normalisation and time zones. Dates are day numbers, and an unparsable date string (NaN in the app) is not represented.
- The `globalThis` polling bridge for form submission (App.tsx:326-370) is left out. Nothing in App.tsx sets the global it polls for, so it is unreachable from this code. It also differs from `Submit` on create: it keeps the form's reminder switch instead of forcing reminders on.
- Random id generation. A create receives a `freshId`, and `Submit` requires it to be unused.
- UI-only state: modals, pickers, image selection, tabs, confirmation dialogs as widgets, and the test-notification button. The delete and archive dialogs appear as separate calls.
- Store.Inventory.Delete: models the delete confirmation's callback as filtering the current items. The app filters the `items` captured when the dialog opened (a stale closure), so an update between opening and confirming would be lost. That interleaving is not modelled.
- Query.LowerAscii: lower-cases ASCII letters only; JavaScript's `toLowerCase` also folds other scripts.
- Ordering.TextLess: compares Unicode scalar values. JavaScript compares UTF-16 code units, which orders characters outside the Basic Multilingual Plane differently.
- Quantities are integers. A fractional quantity entered as text is not modelled.
- The filter sheet offers the sort keys `expiryDate`, `quantity` and `createdAt`; the model adds `name`, the one text key. Other item fields are not offered and are not modelled. `createdAt` is compared as an instant. The app compares the ISO-8601 strings, which order the same way for the app's own timestamps. `Array.prototype.sort` is modelled as a stable insertion sort; ECMAScript 2019 and later require the sort to be stable.
- Logging: the logger's writes to storage are asynchronous in the app. Here each write completes at once, and `saveOk`/`removeOk` is its outcome. If `addLog` runs before the asynchronous `loadLogs` finishes, the load overwrites those entries; that race is not modelled.
- Logging: console output and `JSON.stringify` of `data`, and the `error.message`/`String(error)` rendering, are reduced to the `Arg` value's rendered text.
- Logging.Logger.GetRecentLogs: the count is an integer. A fractional or non-numeric count is not modelled.
- `exportLogs` and the settings page's "clear all data" action are outside this model.
- CheckAndSendExpiryNotifications: each sweep runs to completion before the next one starts, so `SameDayRepeat` covers only sweeps that run one after another. In the app, a sweep's own stamp changes the item list, and that starts a new sweep while the first is still waiting on the notification service for later items. The new sweep reads those later items before they are stamped, so an item can be reminded twice on the same day. Overlapping sweeps are not modelled.
