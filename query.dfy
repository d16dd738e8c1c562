/** The main list view: the active items that pass the search, category, location and status
    filters, stably sorted by the chosen key and direction; and the header's counters. */
module Query {
  import opened Wrappers
  import opened Seqs
  import opened Expiry
  import opened Items
  import opened Ordering

  // ---------------------------------------------------------------- filter and sort settings

  /** The status filter of the filter sheet. */
  datatype StatusFilter = AnyStatus | ExpiringOnly | ExpiredOnly | SafeOnly

  /** The filter sheet; `category` and `location` hold a tag or the word "all". */
  datatype FilterState = FilterState(search: string, category: string, location: string, status: StatusFilter)

  /** The value of the category and location filters that switches them off. */
  const AllTags: string := "all"

  const DefaultFilters: FilterState := FilterState("", AllTags, AllTags, AnyStatus)

  datatype SortKey = ByExpiryDate | ByQuantity | ByCreatedAt | ByName

  datatype Direction = Asc | Desc

  datatype SortConfig = SortConfig(key: SortKey, direction: Direction)

  const DefaultSort: SortConfig := SortConfig(ByExpiryDate, Asc)

  /** The header's swap button: flips the direction and keeps the key. */
  function ToggledDirection(cfg: SortConfig): (r: SortConfig)
    ensures r.key == cfg.key && r.direction != cfg.direction
  {
    cfg.(direction := if cfg.direction == Asc then Desc else Asc)
  }

  /** Toggling twice restores the original setting. */
  lemma ToggleTwice(cfg: SortConfig)
    ensures ToggledDirection(ToggledDirection(cfg)) == cfg
  {
  }

  // ---------------------------------------------------------------- filters

  /** ASCII upper case to lower case; other characters are kept. */
  function LowerAscii(s: string): (r: string)
    ensures |r| == |s|
    ensures forall i :: 0 <= i < |s| && 'A' <= s[i] <= 'Z' ==> r[i] as int == s[i] as int + 32
    ensures forall i :: 0 <= i < |s| && !('A' <= s[i] <= 'Z') ==> r[i] == s[i]
    ensures forall i :: 0 <= i < |r| ==> !('A' <= r[i] <= 'Z')
  {
    seq(|s|, i requires 0 <= i < |s| =>
      if 'A' <= s[i] <= 'Z' then (s[i] as int + 32) as char else s[i])
  }

  /** `needle` occurs in `hay` starting at position `i`. */
  predicate OccursAt(hay: string, needle: string, i: int)
  {
    0 <= i <= |hay| - |needle| && hay[i..i + |needle|] == needle
  }

  /** `needle` occurs in `hay` as a contiguous piece (`String.prototype.includes`). */
  predicate Includes(hay: string, needle: string)
    ensures needle == [] ==> Includes(hay, needle)
    ensures |needle| <= |hay| && hay[..|needle|] == needle ==> Includes(hay, needle)
    ensures Includes(hay, needle) ==> |needle| <= |hay|
    ensures Includes(hay, needle) ==> forall c :: c in needle ==> c in hay
  {
    assert |needle| <= |hay| && hay[..|needle|] == needle ==> OccursAt(hay, needle, 0);
    exists i | 0 <= i <= |hay| - |needle| :: OccursAt(hay, needle, i)
  }

  /** Whether a day count passes the status filter. */
  predicate PassesStatus(status: StatusFilter, days: int)
    ensures status == AnyStatus ==> PassesStatus(status, days)
    ensures status == ExpiredOnly ==> (PassesStatus(status, days) <==> BandOf(days) == Expired)
    ensures status == ExpiringOnly ==> (PassesStatus(status, days) <==> BandOf(days) == Expiring)
    ensures status == SafeOnly ==>
      (PassesStatus(status, days) <==> BandOf(days) == Watch || BandOf(days) == Safe)
  {
    match status
    case AnyStatus => true
    case ExpiredOnly => days < 0
    case ExpiringOnly => 0 <= days <= 30
    case SafeOnly => days > 30
  }

  /** Each day count passes exactly one of the expired, expiring and safe filters. */
  lemma StatusFilterBands(days: int)
    ensures PassesStatus(ExpiredOnly, days) || PassesStatus(ExpiringOnly, days) || PassesStatus(SafeOnly, days)
    ensures !(PassesStatus(ExpiredOnly, days) && PassesStatus(ExpiringOnly, days))
    ensures !(PassesStatus(ExpiringOnly, days) && PassesStatus(SafeOnly, days))
    ensures !(PassesStatus(ExpiredOnly, days) && PassesStatus(SafeOnly, days))
  {
  }

  /** Whether an item appears in the main list under the filters `f` on `today`. */
  predicate Shown(item: Item, f: FilterState, today: Day)
    ensures Shown(item, f, today) ==> !item.archived
    ensures f == DefaultFilters ==> (Shown(item, f, today) <==> !item.archived)
    ensures Shown(item, f, today) && f.category != AllTags ==> item.category == f.category
    ensures Shown(item, f, today) && f.location != AllTags ==> item.location == f.location
  {
    && !item.archived
    && (f.search == "" || Includes(LowerAscii(item.name), LowerAscii(f.search)))
    && (f.category == AllTags || item.category == f.category)
    && (f.location == AllTags || item.location == f.location)
    && PassesStatus(f.status, DaysRemaining(item.expiryDate, today))
  }

  function ShownBy(f: FilterState, today: Day): Item -> bool
  {
    (x: Item) => Shown(x, f, today)
  }

  /** The filtered list before sorting, in store order. */
  function Visible(items: seq<Item>, f: FilterState, today: Day): (r: seq<Item>)
    ensures forall x :: x in r <==> x in items && Shown(x, f, today)
  {
    Filter(items, ShownBy(f, today))
  }

  // ---------------------------------------------------------------- sort

  /** Latest date the app substitutes for a missing expiry date when sorting (2099-12-31). */
  const FarFutureDay: Day := 47481

  /** The value the comparator reads off an item for a sort key. */
  function SortValue(item: Item, key: SortKey): (v: KeyValue)
    ensures key == ByName <==> v.Text?
    ensures key == ByExpiryDate && item.expiryDate.None? ==> v == Num(FarFutureDay)
    ensures key == ByExpiryDate && item.expiryDate.Some? ==> v == Num(item.expiryDate.value)
  {
    match key
    case ByExpiryDate => Num(match item.expiryDate case Some(d) => d case None => FarFutureDay)
    case ByQuantity => Num(item.quantity)
    case ByCreatedAt => Num(item.createdAt)
    case ByName => Text(item.name)
  }

  /** The comparator reports `x` strictly before `y`. */
  predicate Precedes(x: Item, y: Item, cfg: SortConfig)
    ensures cfg.key == ByExpiryDate && x.expiryDate.Some? && y.expiryDate.Some? ==>
      (Precedes(x, y, cfg) <==>
        if cfg.direction == Asc then x.expiryDate.value < y.expiryDate.value
        else y.expiryDate.value < x.expiryDate.value)
    ensures cfg.key == ByQuantity ==>
      (Precedes(x, y, cfg) <==>
        if cfg.direction == Asc then x.quantity < y.quantity else y.quantity < x.quantity)
    ensures cfg.key == ByCreatedAt ==>
      (Precedes(x, y, cfg) <==>
        if cfg.direction == Asc then x.createdAt < y.createdAt else y.createdAt < x.createdAt)
    ensures cfg.key == ByName ==>
      (Precedes(x, y, cfg) <==>
        if cfg.direction == Asc then TextLess(x.name, y.name) else TextLess(y.name, x.name))
  {
    if cfg.direction == Asc then Less(SortValue(x, cfg.key), SortValue(y, cfg.key))
    else Less(SortValue(y, cfg.key), SortValue(x, cfg.key))
  }

  /** No item is strictly before an item to its left. */
  predicate SortedBy(s: seq<Item>, cfg: SortConfig)
  {
    forall i, j :: 0 <= i < j < |s| ==> !Precedes(s[j], s[i], cfg)
  }

  /** `Precedes` orders items strictly, and only items with the same key are incomparable. */
  lemma PrecedesOrder(x: Item, y: Item, z: Item, cfg: SortConfig)
    ensures !Precedes(x, x, cfg)
    ensures Precedes(x, y, cfg) && Precedes(y, z, cfg) ==> Precedes(x, z, cfg)
    ensures Precedes(x, y, cfg) ==> SortValue(x, cfg.key) != SortValue(y, cfg.key)
    ensures SortValue(x, cfg.key) == SortValue(y, cfg.key) || Precedes(x, y, cfg) || Precedes(y, x, cfg)
  {
    var a, b, c := SortValue(x, cfg.key), SortValue(y, cfg.key), SortValue(z, cfg.key);
    LessStrictTotal(a, b, c);
    LessStrictTotal(c, b, a);
    LessStrictTotal(b, b, b);
  }

  /** `x` placed into a sorted list after every item it does not strictly precede. */
  function Insert(x: Item, s: seq<Item>, cfg: SortConfig): (r: seq<Item>)
    ensures multiset(r) == multiset(s) + multiset{x}
  {
    if s == [] then [x]
    else if Precedes(x, s[0], cfg) then [x] + s
    else assert s == [s[0]] + s[1..]; [s[0]] + Insert(x, s[1..], cfg)
  }

  /** The stable sort the view applies: insertion of each item, left to right. */
  function SortItems(s: seq<Item>, cfg: SortConfig): (r: seq<Item>)
    ensures multiset(r) == multiset(s)
  {
    if s == [] then []
    else assert s == s[..|s| - 1] + [s[|s| - 1]]; Insert(s[|s| - 1], SortItems(s[..|s| - 1], cfg), cfg)
  }

  lemma {:induction false} InsertSorted(x: Item, s: seq<Item>, cfg: SortConfig)
    requires SortedBy(s, cfg)
    ensures SortedBy(Insert(x, s, cfg), cfg)
  {
    if s == [] {
    } else if Precedes(x, s[0], cfg) {
      forall y | y in multiset(s) ensures !Precedes(y, x, cfg) {
        var m :| 0 <= m < |s| && s[m] == y;
        PrecedesOrder(y, x, s[0], cfg);
        PrecedesOrder(y, y, y, cfg);
        if m > 0 {
          assert !Precedes(s[m], s[0], cfg);
        }
      }
      PrependSorted(x, s, cfg);
    } else {
      var tail := s[1..];
      SortedTail(s, cfg);
      InsertSorted(x, tail, cfg);
      var rest := Insert(x, tail, cfg);
      forall y | y in multiset(rest) ensures !Precedes(y, s[0], cfg) {
        if y != x {
          assert y in multiset(tail);
          var m :| 0 <= m < |tail| && tail[m] == y;
          assert s[m + 1] == y;
        }
      }
      PrependSorted(s[0], rest, cfg);
    }
  }

  lemma SortedTail(s: seq<Item>, cfg: SortConfig)
    requires SortedBy(s, cfg) && s != []
    ensures SortedBy(s[1..], cfg)
  {
    forall i, j | 0 <= i < j < |s[1..]| ensures !Precedes(s[1..][j], s[1..][i], cfg) {
      assert s[1..][j] == s[j + 1] && s[1..][i] == s[i + 1];
    }
  }

  /** A sorted list stays sorted when an item that nothing in it precedes goes in front. */
  lemma PrependSorted(x: Item, s: seq<Item>, cfg: SortConfig)
    requires SortedBy(s, cfg)
    requires forall y | y in multiset(s) :: !Precedes(y, x, cfg)
    ensures SortedBy([x] + s, cfg)
  {
    var r := [x] + s;
    forall i, j | 0 <= i < j < |r| ensures !Precedes(r[j], r[i], cfg) {
      if i == 0 {
        assert r[j] == s[j - 1];
        assert s[j - 1] in multiset(s);
      } else {
        assert r[i] == s[i - 1] && r[j] == s[j - 1];
      }
    }
  }

  /** The sort's result is in order. */
  lemma {:induction false} SortItemsSorted(s: seq<Item>, cfg: SortConfig)
    ensures SortedBy(SortItems(s, cfg), cfg)
  {
    if s != [] {
      SortItemsSorted(s[..|s| - 1], cfg);
      InsertSorted(s[|s| - 1], SortItems(s[..|s| - 1], cfg), cfg);
    }
  }

  function TiesWith(key: SortKey, k: KeyValue): Item -> bool
  {
    (x: Item) => SortValue(x, key) == k
  }

  /** The items of `s` whose key is `k`, in their order in `s`. */
  function Ties(s: seq<Item>, key: SortKey, k: KeyValue): seq<Item>
  {
    Filter(s, TiesWith(key, k))
  }

  /** Inserting `x` puts it after every earlier item with the same key. */
  lemma {:induction false} InsertTies(x: Item, s: seq<Item>, cfg: SortConfig, k: KeyValue)
    requires SortedBy(s, cfg)
    ensures Ties(Insert(x, s, cfg), cfg.key, k) ==
      Ties(s, cfg.key, k) + (if SortValue(x, cfg.key) == k then [x] else [])
  {
    var p := TiesWith(cfg.key, k);
    FilterSingleton(x, p);
    if s == [] {
    } else if Precedes(x, s[0], cfg) {
      InsertTiesFront(x, s, cfg, k);
    } else {
      var tail := s[1..];
      SortedTail(s, cfg);
      InsertTies(x, tail, cfg, k);
      InsertTiesLater(x, s, cfg, k);
    }
  }

  lemma InsertTiesFront(x: Item, s: seq<Item>, cfg: SortConfig, k: KeyValue)
    requires SortedBy(s, cfg) && s != [] && Precedes(x, s[0], cfg)
    ensures Ties([x] + s, cfg.key, k) == Ties(s, cfg.key, k) + (if SortValue(x, cfg.key) == k then [x] else [])
  {
    var p := TiesWith(cfg.key, k);
    FilterSingleton(x, p);
    FilterConcat([x], s, p);
    if p(x) {
      NoTiesAfter(x, s, cfg);
      FilterNone(s, p);
    }
  }

  lemma InsertTiesLater(x: Item, s: seq<Item>, cfg: SortConfig, k: KeyValue)
    requires s != [] && !Precedes(x, s[0], cfg)
    requires Ties(Insert(x, s[1..], cfg), cfg.key, k) ==
      Ties(s[1..], cfg.key, k) + (if SortValue(x, cfg.key) == k then [x] else [])
    ensures Ties(Insert(x, s, cfg), cfg.key, k) ==
      Ties(s, cfg.key, k) + (if SortValue(x, cfg.key) == k then [x] else [])
  {
    var rest := Insert(x, s[1..], cfg);
    var head := if SortValue(s[0], cfg.key) == k then [s[0]] else [];
    var extra := if SortValue(x, cfg.key) == k then [x] else [];
    InsertBehindHead(x, s, cfg);
    TiesCons(s[0], rest, cfg.key, k);
    TiesCons(s[0], s[1..], cfg.key, k);
    assert [s[0]] + s[1..] == s;
    ConcatAssoc(head, Ties(s[1..], cfg.key, k), extra);
  }

  lemma InsertBehindHead(x: Item, s: seq<Item>, cfg: SortConfig)
    requires s != [] && !Precedes(x, s[0], cfg)
    ensures Insert(x, s, cfg) == [s[0]] + Insert(x, s[1..], cfg)
  {
  }

  lemma TiesCons(y: Item, s: seq<Item>, key: SortKey, k: KeyValue)
    ensures Ties([y] + s, key, k) == (if SortValue(y, key) == k then [y] else []) + Ties(s, key, k)
  {
    FilterConcat([y], s, TiesWith(key, k));
    FilterSingleton(y, TiesWith(key, k));
  }

  /** Nothing in a sorted list whose head `x` precedes has the key of `x`. */
  lemma NoTiesAfter(x: Item, s: seq<Item>, cfg: SortConfig)
    requires SortedBy(s, cfg) && s != [] && Precedes(x, s[0], cfg)
    ensures forall y :: y in s ==> !TiesWith(cfg.key, SortValue(x, cfg.key))(y)
  {
    forall y | y in s ensures SortValue(y, cfg.key) != SortValue(x, cfg.key) {
      var m :| 0 <= m < |s| && s[m] == y;
      PrecedesOrder(x, s[0], y, cfg);
      PrecedesOrder(y, s[0], s[0], cfg);
      PrecedesOrder(x, y, y, cfg);
      if m > 0 {
        assert !Precedes(s[m], s[0], cfg);
      }
    }
  }

  /** The sort is stable: for every key, the items with that key keep their relative order. */
  lemma {:induction false} SortItemsStable(s: seq<Item>, cfg: SortConfig, k: KeyValue)
    ensures Ties(SortItems(s, cfg), cfg.key, k) == Ties(s, cfg.key, k)
  {
    if s != [] {
      var init, last := s[..|s| - 1], s[|s| - 1];
      SortItemsStable(init, cfg, k);
      SortItemsSorted(init, cfg);
      InsertTies(last, SortItems(init, cfg), cfg, k);
      TiesSnoc(s, cfg.key, k);
    }
  }

  /** The ties of a list are those of all but its last item, then the last if it ties. */
  lemma TiesSnoc(s: seq<Item>, key: SortKey, k: KeyValue)
    requires s != []
    ensures Ties(s, key, k) ==
      Ties(s[..|s| - 1], key, k) + (if SortValue(s[|s| - 1], key) == k then [s[|s| - 1]] else [])
  {
    var init, last := s[..|s| - 1], s[|s| - 1];
    FilterConcat(init, [last], TiesWith(key, k));
    FilterSingleton(last, TiesWith(key, k));
    assert init + [last] == s;
  }

  /** In a list sorted by expiry date, an undated item (compared as 2099-12-31) has no earlier
      dated item to its right when ascending, and none to its left when descending. */
  lemma UndatedPlacement(s: seq<Item>, cfg: SortConfig, i: nat, j: nat)
    requires cfg.key == ByExpiryDate && SortedBy(s, cfg) && i < |s| && j < |s|
    requires s[i].expiryDate.None? && s[j].expiryDate.Some? && s[j].expiryDate.value < FarFutureDay
    ensures cfg.direction == Asc ==> j < i
    ensures cfg.direction == Desc ==> i < j
  {
    assert i != j;
  }

  // ---------------------------------------------------------------- the view

  /** The main list: exactly the active items that pass every filter, each as often as it is
      stored, in sorted order, with ties in store order. */
  function View(items: seq<Item>, f: FilterState, cfg: SortConfig, today: Day): (r: seq<Item>)
    ensures forall x :: x in r <==> x in items && Shown(x, f, today)
    ensures forall x :: x in r ==> !x.archived
    ensures forall x :: multiset(r)[x] == if Shown(x, f, today) then multiset(items)[x] else 0
    ensures SortedBy(r, cfg)
    ensures forall k :: Ties(r, cfg.key, k) == Ties(Visible(items, f, today), cfg.key, k)
  {
    var v := Visible(items, f, today);
    SortItemsSorted(v, cfg);
    ViewStable(v, cfg);
    ViewCounts(items, f, today);
    SortItems(v, cfg)
  }

  lemma ViewStable(v: seq<Item>, cfg: SortConfig)
    ensures forall k :: Ties(SortItems(v, cfg), cfg.key, k) == Ties(v, cfg.key, k)
  {
    forall k {
      SortItemsStable(v, cfg, k);
    }
  }

  lemma ViewCounts(items: seq<Item>, f: FilterState, today: Day)
    ensures forall x :: multiset(Visible(items, f, today))[x] == if Shown(x, f, today) then multiset(items)[x] else 0
  {
    forall x {
      FilterMultiplicity(items, ShownBy(f, today), x);
    }
  }

  // ---------------------------------------------------------------- header counters

  /** The header's counters. They count every stored item, archived ones included. */
  datatype Stats = Stats(expired: nat, expiring: nat, total: nat)

  function InBand(today: Day, b: Band): Item -> bool
  {
    (x: Item) => BandOf(DaysRemaining(x.expiryDate, today)) == b
  }

  /** The stored items whose status on `today` is band `b`. */
  function OfBand(items: seq<Item>, today: Day, b: Band): seq<Item>
  {
    Filter(items, InBand(today, b))
  }

  /** The four bands split the stored items between them. */
  lemma {:induction false} BandsPartition(items: seq<Item>, today: Day)
    ensures |OfBand(items, today, Expired)| + |OfBand(items, today, Expiring)|
          + |OfBand(items, today, Watch)| + |OfBand(items, today, Safe)| == |items|
  {
    if items != [] {
      BandsPartition(items[1..], today);
    }
  }

  /** Expired: day count below 0; expiring: 0 to 30; total: all stored items. */
  function StatsOf(items: seq<Item>, today: Day): (r: Stats)
    ensures r.total == |items|
    ensures r.expired == |Filter(items, InBand(today, Expired))|
    ensures r.expiring == |Filter(items, InBand(today, Expiring))|
    ensures r.expired + r.expiring <= r.total
  {
    BandsPartition(items, today);
    Stats(|OfBand(items, today, Expired)|, |OfBand(items, today, Expiring)|, |items|)
  }
}
