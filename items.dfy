/** The item records of script.js and the rules that decide what the list shows:
    the stored list and its demo seed, the filter, the sort orders, the `'id:'` image
    reference convention and the upload size classification. */
module Items {
  import opened Strings

  const Lost := "lost"
  const Found := "found"

  /** One lost-and-found record as script.js stores it. */
  datatype Item = Item(id: string, name: string, desc: string, location: string, date: string,
                       contact: string, image: string, status: string)

  /** What the browser store holds under `findit_items_v1`: nothing, text that does not
      parse, or a saved list. */
  datatype Stored = Absent | Unparsable | Saved(items: seq<Item>)

  /** The two demo records `loadItems` seeds, with ids drawn from `uid()`. */
  function SeedItems(id1: string, id2: string): seq<Item> {
    [ Item(id1, "Black Backpack", "Leather with a red ribbon on the strap", "Science Block - 2nd floor",
           "2025-11-21", "student@campus.edu", "", Lost),
      Item(id2, "Silver MacBook", "13 inch, sticker on lid", "Library",
           "2025-11-24", "owner@uni.edu", "", Lost) ]
  }

  /** The list `loadItems` ends with: the parsed store, or the seed when that is empty,
      missing or unparsable. */
  function Loaded(stored: Stored, id1: string, id2: string): (r: seq<Item>)
    ensures |r| > 0
    ensures stored.Saved? && stored.items != [] ==> r == stored.items
    ensures !(stored.Saved? && stored.items != []) ==> r == SeedItems(id1, id2)
  {
    var parsed := if stored.Saved? then stored.items else [];
    if parsed == [] then SeedItems(id1, id2) else parsed
  }

  /** The first position holding `id`, or -1. */
  function FindIndex(items: seq<Item>, id: string): (k: int)
    ensures -1 <= k < |items|
    ensures k >= 0 ==> items[k].id == id && forall j :: 0 <= j < k ==> items[j].id != id
    ensures k == -1 ==> forall j :: 0 <= j < |items| ==> items[j].id != id
    decreases |items|
  {
    if items == [] then -1
    else if items[0].id == id then 0
    else
      var k := FindIndex(items[1..], id);
      if k == -1 then -1 else k + 1
  }

  /** The toggle action: `lost` becomes `found`, anything else becomes `lost`. */
  function Flip(status: string): (r: string)
    ensures r == Lost || r == Found
    ensures r == Found <==> status == Lost
  {
    if status == Lost then Found else Lost
  }

  /** Toggling twice restores the status exactly when it was `lost` or `found`. */
  lemma FlipTwice(status: string)
    ensures Flip(Flip(status)) == status <==> status == Lost || status == Found
  {
  }

  // ---- filtering ------------------------------------------------------------------

  /** The query `renderItems` searches for: the trimmed, lower-cased search box value, or
      empty when there is no search box. */
  function Query(hasSearchBox: bool, value: string): string {
    if hasSearchBox && value != [] then ToLower(Trim(value)) else []
  }

  /** `matchesQ && matchesState` of the filter callback. */
  predicate Keep(item: Item, q: string, state: string) {
    && (q == [] || Contains(ToLower(item.name), q) || Contains(ToLower(item.location), q)
                || Contains(ToLower(item.desc), q))
    && (state == "all" || item.status == state)
  }

  /** `items.filter(...)`: the kept items, in stored order. */
  function Filter(items: seq<Item>, q: string, state: string): (r: seq<Item>)
    ensures |r| <= |items|
    ensures multiset(r) <= multiset(items)
    ensures forall x :: x in r <==> x in items && Keep(x, q, state)
    decreases |items|
  {
    if items == [] then []
    else
      var rest := Filter(items[1..], q, state);
      assert items == [items[0]] + items[1..];
      if Keep(items[0], q, state) then [items[0]] + rest else rest
  }

  /** With an empty query and state `all` every item is listed. */
  lemma {:induction false} FilterAll(items: seq<Item>)
    ensures Filter(items, [], "all") == items
    decreases |items|
  {
    if items != [] {
      FilterAll(items[1..]);
    }
  }

  /** An item whose status is neither `lost` nor `found` shows only under `all`. */
  lemma OtherStatusOnlyUnderAll(items: seq<Item>, q: string, state: string, x: Item)
    requires x.status != Lost && x.status != Found
    requires state == Lost || state == Found
    ensures x !in Filter(items, q, state)
  {
  }

  // ---- sorting ----------------------------------------------------------------------

  /** The sort select's values; any other value leaves the filtered order alone. */
  datatype SortOrder = Newest | Oldest | ByName | ByLocation | AsFiltered

  /** `sortBySelect ? sortBySelect.value : 'newest'`, mapped to an order. */
  function OrderOf(hasSelect: bool, value: string): SortOrder {
    var v := if hasSelect then value else "newest";
    if v == "newest" then Newest
    else if v == "oldest" then Oldest
    else if v == "name" then ByName
    else if v == "location" then ByLocation
    else AsFiltered
  }

  /** Lexicographic order on code units; it stands for the locale collation of
      `localeCompare`, which it does not reproduce. */
  predicate LexLe(a: string, b: string)
    decreases |a|
  {
    a == [] || (b != [] && (a[0] < b[0] || (a[0] == b[0] && LexLe(a[1..], b[1..]))))
  }

  lemma {:induction false} LexTotal(a: string, b: string)
    ensures LexLe(a, b) || LexLe(b, a)
    decreases |a|
  {
    if a != [] && b != [] && a[0] == b[0] {
      LexTotal(a[1..], b[1..]);
    }
  }

  /** `x` may stand before `y` under the order: the comparator does not put `y` first. */
  predicate Before(o: SortOrder, x: Item, y: Item) {
    match o
    case Newest => LexLe(y.date, x.date)
    case Oldest => LexLe(x.date, y.date)
    case ByName => LexLe(x.name, y.name)
    case ByLocation => LexLe(x.location, y.location)
    case AsFiltered => true
  }

  lemma BeforeTotal(o: SortOrder, x: Item, y: Item)
    ensures Before(o, x, y) || Before(o, y, x)
  {
    match o {
      case Newest => LexTotal(x.date, y.date);
      case Oldest => LexTotal(x.date, y.date);
      case ByName => LexTotal(x.name, y.name);
      case ByLocation => LexTotal(x.location, y.location);
      case AsFiltered =>
    }
  }

  predicate Sorted(o: SortOrder, s: seq<Item>) {
    forall i :: 0 <= i < |s| - 1 ==> Before(o, s[i], s[i + 1])
  }

  /** Places `x` ahead of the first element it may precede, so that ties keep `x` first. */
  function Insert(o: SortOrder, x: Item, s: seq<Item>): seq<Item>
    decreases |s|
  {
    if s == [] then [x]
    else if Before(o, x, s[0]) then [x] + s
    else [s[0]] + Insert(o, x, s[1..])
  }

  /** The sort `Array.prototype.sort` performs with the order's comparator, as an insertion
      sort (proved ordered and a permutation of its input). */
  function Sort(o: SortOrder, s: seq<Item>): seq<Item>
    decreases |s|
  {
    if s == [] then [] else Insert(o, s[0], Sort(o, s[1..]))
  }

  /** Inserting adds exactly `x`, and the result starts with `x` or with the old head. */
  lemma {:induction false} InsertContents(o: SortOrder, x: Item, s: seq<Item>)
    ensures multiset(Insert(o, x, s)) == multiset(s) + multiset{x}
    ensures Insert(o, x, s)[0] == x || (s != [] && Insert(o, x, s)[0] == s[0])
    decreases |s|
  {
    if s != [] && !Before(o, x, s[0]) {
      InsertContents(o, x, s[1..]);
      assert s == [s[0]] + s[1..];
    }
  }

  lemma SortedTail(o: SortOrder, s: seq<Item>)
    requires s != [] && Sorted(o, s)
    ensures Sorted(o, s[1..])
  {
    var t := s[1..];
    forall i | 0 <= i < |t| - 1 ensures Before(o, t[i], t[i + 1]) {
      assert t[i] == s[i + 1] && t[i + 1] == s[i + 2];
    }
  }

  lemma SortedCons(o: SortOrder, y: Item, t: seq<Item>)
    requires Sorted(o, t) && (t != [] ==> Before(o, y, t[0]))
    ensures Sorted(o, [y] + t)
  {
    var r := [y] + t;
    forall i | 0 <= i < |r| - 1 ensures Before(o, r[i], r[i + 1]) {
      if i > 0 {
        assert r[i] == t[i - 1] && r[i + 1] == t[i];
      }
    }
  }

  /** Inserting into a sorted list keeps it sorted. */
  lemma {:induction false} InsertSorted(o: SortOrder, x: Item, s: seq<Item>)
    requires Sorted(o, s)
    ensures Sorted(o, Insert(o, x, s))
    decreases |s|
  {
    if s == [] {
    } else if Before(o, x, s[0]) {
      SortedCons(o, x, s);
    } else {
      SortedTail(o, s);
      InsertSorted(o, x, s[1..]);
      InsertContents(o, x, s[1..]);
      BeforeTotal(o, x, s[0]);
      SortedCons(o, s[0], Insert(o, x, s[1..]));
    }
  }

  /** The listed order is sorted and holds exactly the filtered items. */
  lemma SortSpec(o: SortOrder, s: seq<Item>)
    ensures Sorted(o, Sort(o, s))
    ensures multiset(Sort(o, s)) == multiset(s)
  {
    SortSorted(o, s);
    SortPermutes(o, s);
  }

  lemma {:induction false} SortSorted(o: SortOrder, s: seq<Item>)
    ensures Sorted(o, Sort(o, s))
    decreases |s|
  {
    if s != [] {
      SortSorted(o, s[1..]);
      InsertSorted(o, s[0], Sort(o, s[1..]));
    }
  }

  lemma MultisetCons<T>(s: seq<T>)
    requires s != []
    ensures multiset(s) == multiset{s[0]} + multiset(s[1..])
  {
    assert s == [s[0]] + s[1..];
  }

  lemma {:induction false} SortPermutes(o: SortOrder, s: seq<Item>)
    ensures multiset(Sort(o, s)) == multiset(s)
    decreases |s|
  {
    if s != [] {
      SortPermutes(o, s[1..]);
      InsertContents(o, s[0], Sort(o, s[1..]));
      MultisetCons(s);
    }
  }

  /** An unknown sort value keeps the filtered order. */
  lemma {:induction false} SortAsFiltered(s: seq<Item>)
    ensures Sort(AsFiltered, s) == s
    decreases |s|
  {
    if s != [] {
      SortAsFiltered(s[1..]);
    }
  }

  /** What `renderItems` lists: the filter, then the sort. */
  function Listed(items: seq<Item>, q: string, state: string, o: SortOrder): seq<Item> {
    Sort(o, Filter(items, q, state))
  }

  /** The listed items are exactly those the filter keeps, so the count shown never exceeds
      the total. */
  lemma ListedSpec(items: seq<Item>, q: string, state: string, o: SortOrder)
    ensures var r := Listed(items, q, state, o);
            && Sorted(o, r)
            && |r| <= |items|
            && (forall x :: x in r <==> x in items && Keep(x, q, state))
  {
    var f := Filter(items, q, state);
    SortSpec(o, f);
    assert forall x :: x in Sort(o, f) <==> x in multiset(Sort(o, f));
    assert |Sort(o, f)| == |multiset(Sort(o, f))|;
  }

  // ---- images -------------------------------------------------------------------------

  const RefPrefix := "id:"

  /** `'id:' + id`: an image kept in the browser database, referred to by its key. */
  function ImageRef(key: string): string {
    RefPrefix + key
  }

  /** An image that refers to a blob in the database: it starts with the reference prefix. */
  predicate IsRef(image: string) {
    StartsWith(image, RefPrefix)
  }

  /** `image.slice(3)`. */
  function RefKey(image: string): string
    requires IsRef(image)
  {
    image[|RefPrefix|..]
  }

  /** The reference convention round-trips in both directions. */
  lemma RefRoundTrip(key: string, image: string)
    ensures IsRef(ImageRef(key)) && RefKey(ImageRef(key)) == key
    ensures IsRef(image) ==> ImageRef(RefKey(image)) == image
  {
    assert ImageRef(key)[..|RefPrefix|] == RefPrefix;
    if IsRef(image) {
      assert image == image[..|RefPrefix|] + image[|RefPrefix|..];
    }
  }

  /** An inlined data URL. */
  predicate IsDataUrl(image: string) {
    StartsWith(image, "data:")
  }

  // ---- uploads ------------------------------------------------------------------------

  const MaxUpload: nat := 50 * 1024 * 1024
  const ReferenceThreshold: nat := 10 * 1024 * 1024

  /** The chosen file's size in bytes and its media type (`''` when the browser gives none). */
  datatype FileInfo = FileInfo(size: nat, mime: string)

  datatype Upload = NoFile | TooLarge | NotAnImage | ByReference | Inline

  /** The decision of the file input's change handler. */
  function ClassifyUpload(file: Option<FileInfo>, dbAvailable: bool): Upload {
    if file.None? then NoFile
    else if file.value.size > MaxUpload then TooLarge
    else if !StartsWith(file.value.mime, "image/") then NotAnImage
    else if file.value.size > ReferenceThreshold && dbAvailable then ByReference
    else Inline
  }

  /** The size check first, then the type; a large image goes by reference only when the
      database exists, and everything else accepted is inlined. */
  lemma UploadRules(f: FileInfo, db: bool)
    ensures ClassifyUpload(Some(f), db) == TooLarge <==> f.size > MaxUpload
    ensures ClassifyUpload(Some(f), db) == NotAnImage <==>
              f.size <= MaxUpload && !StartsWith(f.mime, "image/")
    ensures ClassifyUpload(Some(f), db) == ByReference <==>
              ReferenceThreshold < f.size <= MaxUpload && db && StartsWith(f.mime, "image/")
    ensures ClassifyUpload(Some(f), db) == Inline <==>
              f.size <= MaxUpload && (f.size <= ReferenceThreshold || !db) && StartsWith(f.mime, "image/")
    ensures ClassifyUpload(Some(f), db) != NoFile
  {
  }

  /** Both thresholds are strict: exactly 50 MB is accepted and exactly 10 MB is inlined. */
  lemma UploadBoundaries(mime: string, db: bool)
    requires StartsWith(mime, "image/")
    ensures ClassifyUpload(Some(FileInfo(MaxUpload, mime)), db) == (if db then ByReference else Inline)
    ensures ClassifyUpload(Some(FileInfo(MaxUpload + 1, mime)), db) == TooLarge
    ensures ClassifyUpload(Some(FileInfo(ReferenceThreshold, mime)), db) == Inline
    ensures ClassifyUpload(Some(FileInfo(ReferenceThreshold + 1, mime)), db) == (if db then ByReference else Inline)
  {
  }

  /** `window.validateFileSize`: `true` when no file is chosen or it is at most 50 MB. */
  function ValidateFileSize(size: Option<nat>): bool {
    size.None? || size.value <= MaxUpload
  }

  /** The inline `onchange` validator and the change handler agree on the size limit. */
  lemma ValidateAgreesWithUpload(f: FileInfo, db: bool)
    ensures ValidateFileSize(Some(f.size)) <==> ClassifyUpload(Some(f), db) != TooLarge
    ensures ValidateFileSize(None)
  {
  }
}
