/** The inventory's records: an item, the add/edit form that produces one, and the
    invariants the store keeps over its list of items. */
module Items {
  import opened Wrappers
  import opened Expiry

  /** An item's opaque identifier. */
  type ItemId = string

  /** A point in time (milliseconds since 1970-01-01), as stamped on creation and archiving. */
  type Instant = int

  /** One tracked inventory unit. Optional fields of the app that are absent are `None`
      (or `false` for the two flags). */
  datatype Item = Item(
    id: ItemId,
    name: string,
    category: string,
    location: string,
    quantity: int,
    unit: string,
    expiryDate: Option<Day>,
    image: Option<string>,
    note: string,
    createdAt: Instant,
    archived: bool,
    archivedAt: Option<Instant>,
    notificationsDisabled: bool,
    lastNotificationDate: Option<Day>)

  /** The fields of the add/edit form; everything else about an item comes from the store. */
  datatype ItemForm = ItemForm(
    name: string,
    category: string,
    location: string,
    quantity: int,
    unit: string,
    expiryDate: Option<Day>,
    image: Option<string>,
    note: string,
    notificationsDisabled: bool)

  /** No two items share an id. */
  predicate UniqueIds(items: seq<Item>)
  {
    forall i, j :: 0 <= i < |items| && 0 <= j < |items| && items[i].id == items[j].id ==> i == j
  }

  /** No item carries `id`. */
  predicate IdFree(items: seq<Item>, id: ItemId)
  {
    forall i :: 0 <= i < |items| ==> items[i].id != id
  }

  /** Archived items carry an archive time and active ones do not. */
  predicate ArchiveStamped(items: seq<Item>)
  {
    forall i :: 0 <= i < |items| ==> (items[i].archived <==> items[i].archivedAt.Some?)
  }

  /** A character that JavaScript's `trim` strips (white space and line terminators). */
  predicate IsTrimmed(c: char)
    ensures '!' <= c <= '~' ==> !IsTrimmed(c)
    ensures c == ' ' || c == '\t' || c == '\n' ==> IsTrimmed(c)
  {
    || c == ' ' || c == '\t' || c == '\n' || c == '\r' || c == '\U{000B}' || c == '\U{000C}'
    || c == '\U{00A0}' || c == '\U{1680}' || ('\U{2000}' <= c <= '\U{200A}')
    || c == '\U{2028}' || c == '\U{2029}' || c == '\U{202F}' || c == '\U{205F}'
    || c == '\U{3000}' || c == '\U{FEFF}'
  }

  /** A name that is empty once trimmed. */
  predicate Blank(s: string)
    ensures s == [] ==> Blank(s)
    ensures (exists i :: 0 <= i < |s| && '!' <= s[i] <= '~') ==> !Blank(s)
  {
    forall i :: 0 <= i < |s| ==> IsTrimmed(s[i])
  }

  /** The item an edit produces: the form's fields over the stored item's id and creation time.
      Fields the form does not carry (archive state, last reminder day) are dropped. */
  function EditedItem(form: ItemForm, id: ItemId, createdAt: Instant): (it: Item)
    ensures it.id == id && it.createdAt == createdAt
    ensures it.name == form.name && it.category == form.category && it.location == form.location
    ensures it.quantity == form.quantity && it.unit == form.unit && it.expiryDate == form.expiryDate
    ensures it.image == form.image && it.note == form.note
    ensures it.notificationsDisabled == form.notificationsDisabled
    ensures !it.archived && it.archivedAt.None? && it.lastNotificationDate.None?
  {
    Item(id, form.name, form.category, form.location, form.quantity, form.unit,
         form.expiryDate, form.image, form.note, createdAt, false, None,
         form.notificationsDisabled, None)
  }

  /** The item a create produces: like an edit, but reminders are always switched on. */
  function NewItem(form: ItemForm, id: ItemId, now: Instant): (it: Item)
    ensures it.id == id && it.createdAt == now
    ensures it.name == form.name && it.category == form.category && it.location == form.location
    ensures it.quantity == form.quantity && it.unit == form.unit && it.expiryDate == form.expiryDate
    ensures it.image == form.image && it.note == form.note
    ensures !it.notificationsDisabled
    ensures !it.archived && it.archivedAt.None? && it.lastNotificationDate.None?
  {
    EditedItem(form, id, now).(notificationsDisabled := false)
  }
}
