/** The dashboard of dashboard.js: status counters, the location histogram, the recent and
    top slices, the tab panel and its handler registry. */
module Dashboard {
  import opened Strings
  import opened Items

  /** `loadItems()` of the dashboard: the stored list, or `[]` when the key is missing or its
      text does not parse. Unlike the item list it never seeds. */
  function StoredItems(s: Stored): seq<Item> {
    if s.Saved? then s.items else []
  }

  // ---------------------------------------------------------------------------------------
  // countByStatus

  /** The number of items whose status is exactly `s`. */
  function CountStatus(items: seq<Item>, s: string): nat
    decreases |items|
  {
    if items == [] then 0
    else CountStatus(items[..|items| - 1], s) + (if items[|items| - 1].status == s then 1 else 0)
  }

  /** The number of items whose status is neither `lost` nor `found`. */
  function CountOther(items: seq<Item>): nat
    decreases |items|
  {
    if items == [] then 0
    else
      var st := items[|items| - 1].status;
      CountOther(items[..|items| - 1]) + (if st != Lost && st != Found then 1 else 0)
  }

  /** `countByStatus(items)`: one pass over the items with two counters. */
  method CountByStatus(items: seq<Item>) returns (total: nat, lost: nat, found: nat)
    ensures total == |items|
    ensures lost == CountStatus(items, Lost) && found == CountStatus(items, Found)
  {
    total := |items|;
    lost := 0;
    found := 0;
    for i := 0 to |items|
      invariant lost == CountStatus(items[..i], Lost)
      invariant found == CountStatus(items[..i], Found)
    {
      assert items[..i + 1][..i] == items[..i];
      if items[i].status == Lost {
        lost := lost + 1;
      } else if items[i].status == Found {
        found := found + 1;
      }
    }
    assert items[..|items|] == items;
  }

  /** Every item is counted once: as lost, as found, or in neither count. */
  lemma {:induction false} StatusPartition(items: seq<Item>)
    ensures CountStatus(items, Lost) + CountStatus(items, Found) + CountOther(items) == |items|
    decreases |items|
  {
    if items != [] {
      StatusPartition(items[..|items| - 1]);
    }
  }

  /** `lost + found` never exceeds `total`, and equals it exactly when no item has another
      status. */
  lemma CountsBound(items: seq<Item>)
    ensures CountStatus(items, Lost) + CountStatus(items, Found) <= |items|
    ensures CountStatus(items, Lost) + CountStatus(items, Found) == |items| <==> CountOther(items) == 0
  {
    StatusPartition(items);
  }

  // ---------------------------------------------------------------------------------------
  // uniqueLocations

  /** The location an item is counted under: `Unknown` when it has none. */
  function LocKey(x: Item): string {
    if x.location == [] then "Unknown" else x.location
  }

  /** The number of items counted under key `k`. */
  function Tally(items: seq<Item>, k: string): nat
    decreases |items|
  {
    if items == [] then 0
    else Tally(items[..|items| - 1], k) + (if LocKey(items[|items| - 1]) == k then 1 else 0)
  }

  /** The keys of the map object in the order they were first set. */
  function Keys(items: seq<Item>): seq<string>
    decreases |items|
  {
    if items == [] then []
    else
      var ks := Keys(items[..|items| - 1]);
      var k := LocKey(items[|items| - 1]);
      if k in ks then ks else ks + [k]
  }

  predicate DistinctKeys(ks: seq<string>) {
    forall i, j :: 0 <= i < |ks| && 0 <= j < |ks| && i != j ==> ks[i] != ks[j]
  }

  /** The keys are distinct, and a key is present exactly when some item is counted under it. */
  lemma {:induction false} KeysSpec(items: seq<Item>)
    ensures DistinctKeys(Keys(items))
    ensures forall k :: k in Keys(items) <==> Tally(items, k) > 0
    decreases |items|
  {
    if items != [] {
      KeysSpec(items[..|items| - 1]);
    }
  }

  /** One histogram entry: a location and its count. */
  datatype Entry = Entry(loc: string, count: nat)

  /** `Object.entries(map)` for the keys `ks`. */
  function Entries(ks: seq<string>, items: seq<Item>): seq<Entry>
    decreases |ks|
  {
    if ks == [] then [] else [Entry(ks[0], Tally(items, ks[0]))] + Entries(ks[1..], items)
  }

  /** Places `e` before the first entry whose count is not larger, so that entries with equal
      counts keep their order. */
  function InsertByCount(e: Entry, s: seq<Entry>): seq<Entry>
    decreases |s|
  {
    if s == [] || s[0].count <= e.count then [e] + s else [s[0]] + InsertByCount(e, s[1..])
  }

  /** The histogram's order: an insertion sort by non-increasing count. */
  function ByCount(s: seq<Entry>): seq<Entry>
    decreases |s|
  {
    if s == [] then [] else InsertByCount(s[0], ByCount(s[1..]))
  }

  /** `uniqueLocations(items)`. */
  function Histogram(items: seq<Item>): seq<Entry> {
    ByCount(Entries(Keys(items), items))
  }

  predicate SortedByCount(s: seq<Entry>) {
    forall i :: 0 <= i < |s| - 1 ==> s[i].count >= s[i + 1].count
  }

  function Sum(s: seq<Entry>): nat
    decreases |s|
  {
    if s == [] then 0 else s[0].count + Sum(s[1..])
  }

  lemma {:induction false} InsertByCountSpec(e: Entry, s: seq<Entry>)
    ensures |InsertByCount(e, s)| == |s| + 1
    ensures forall x :: x in InsertByCount(e, s) <==> x == e || x in s
    ensures Sum(InsertByCount(e, s)) == e.count + Sum(s)
    ensures SortedByCount(s) ==> SortedByCount(InsertByCount(e, s))
    ensures InsertByCount(e, s)[0] == e || (s != [] && InsertByCount(e, s)[0] == s[0])
    decreases |s|
  {
    if s != [] && s[0].count > e.count {
      InsertByCountSpec(e, s[1..]);
      var r := InsertByCount(e, s[1..]);
      assert InsertByCount(e, s) == [s[0]] + r;
      if SortedByCount(s) {
        assert SortedByCount(s[1..]) by {
          forall i | 0 <= i < |s[1..]| - 1 ensures s[1..][i].count >= s[1..][i + 1].count {
            assert s[1..][i] == s[i + 1] && s[1..][i + 1] == s[i + 2];
          }
        }
        assert s[1..] != [] ==> r[0] == e || r[0] == s[1..][0];
      }
      forall x ensures x in [s[0]] + r <==> x == e || x in s {
        assert x in s <==> x == s[0] || x in s[1..];
      }
    } else {
      assert ([e] + s)[1..] == s;
    }
  }

  /** The sort keeps the entries and the total, and orders by count. */
  lemma {:induction false} ByCountSpec(s: seq<Entry>)
    ensures |ByCount(s)| == |s|
    ensures forall x :: x in ByCount(s) <==> x in s
    ensures Sum(ByCount(s)) == Sum(s)
    ensures SortedByCount(ByCount(s))
    decreases |s|
  {
    if s != [] {
      ByCountSpec(s[1..]);
      InsertByCountSpec(s[0], ByCount(s[1..]));
      forall x ensures x in s <==> x == s[0] || x in s[1..] {
        assert s == [s[0]] + s[1..];
      }
    }
  }

  /** Every entry of `Entries(ks, items)` pairs a key of `ks` with its tally. */
  lemma {:induction false} EntriesSpec(ks: seq<string>, items: seq<Item>)
    ensures |Entries(ks, items)| == |ks|
    ensures forall i :: 0 <= i < |ks| ==> Entries(ks, items)[i] == Entry(ks[i], Tally(items, ks[i]))
    decreases |ks|
  {
    if ks != [] {
      EntriesSpec(ks[1..], items);
    }
  }

  /** How many times `k` occurs in `ks`. */
  function Occurrences(ks: seq<string>, k: string): nat
    decreases |ks|
  {
    if ks == [] then 0 else (if ks[0] == k then 1 else 0) + Occurrences(ks[1..], k)
  }

  lemma {:induction false} OccursOnce(ks: seq<string>, k: string)
    requires DistinctKeys(ks) && k in ks
    ensures Occurrences(ks, k) == 1
    decreases |ks|
  {
    if ks[0] == k {
      assert k !in ks[1..] by {
        forall j | 0 <= j < |ks[1..]| ensures ks[1..][j] != k {
          assert ks[1..][j] == ks[j + 1];
        }
      }
      OccursNot(ks[1..], k);
    } else {
      assert DistinctKeys(ks[1..]) by {
        forall i, j | 0 <= i < |ks[1..]| && 0 <= j < |ks[1..]| && i != j ensures ks[1..][i] != ks[1..][j] {
          assert ks[1..][i] == ks[i + 1] && ks[1..][j] == ks[j + 1];
        }
      }
      OccursOnce(ks[1..], k);
    }
  }

  lemma {:induction false} OccursNot(ks: seq<string>, k: string)
    requires k !in ks
    ensures Occurrences(ks, k) == 0
    decreases |ks|
  {
    if ks != [] {
      assert ks[0] != k;
      assert k !in ks[1..];
      OccursNot(ks[1..], k);
    }
  }

  /** One more item adds one to the total for every occurrence of its key. */
  lemma {:induction false} EntriesSnoc(ks: seq<string>, items: seq<Item>, x: Item)
    ensures Sum(Entries(ks, items + [x])) == Sum(Entries(ks, items)) + Occurrences(ks, LocKey(x))
    decreases |ks|
  {
    if ks != [] {
      assert (items + [x])[..|items|] == items;
      EntriesSnoc(ks[1..], items, x);
    }
  }

  /** Over distinct keys that cover every item, the tallies add up to the number of items. */
  lemma {:induction false} TalliesSum(ks: seq<string>, items: seq<Item>)
    requires DistinctKeys(ks)
    requires forall i :: 0 <= i < |items| ==> LocKey(items[i]) in ks
    ensures Sum(Entries(ks, items)) == |items|
    decreases |items|
  {
    if items == [] {
      TalliesZero(ks);
    } else {
      var xs := items[..|items| - 1];
      var x := items[|items| - 1];
      assert items == xs + [x];
      TalliesSum(ks, xs);
      EntriesSnoc(ks, xs, x);
      OccursOnce(ks, LocKey(x));
    }
  }

  lemma {:induction false} TalliesZero(ks: seq<string>)
    ensures Sum(Entries(ks, [])) == 0
    decreases |ks|
  {
    if ks != [] {
      TalliesZero(ks[1..]);
    }
  }

  /** The histogram's keys are distinct, every entry holds the count of its key, every item's
      key has an entry, the counts add up to the number of items and they never increase
      along the list. */
  lemma HistogramSpec(items: seq<Item>)
    ensures var h := Histogram(items);
            && (forall e :: e in h ==> e.count == Tally(items, e.loc) && e.count > 0)
            && (forall i :: 0 <= i < |items| ==> Entry(LocKey(items[i]), Tally(items, LocKey(items[i]))) in h)
            && Sum(h) == |items|
            && SortedByCount(h)
  {
    var ks := Keys(items);
    var es := Entries(ks, items);
    KeysSpec(items);
    EntriesSpec(ks, items);
    ByCountSpec(es);
    forall e | e in es ensures e.count == Tally(items, e.loc) && e.count > 0 {
      var i :| 0 <= i < |es| && es[i] == e;
      assert ks[i] in ks;
    }
    forall i | 0 <= i < |items| ensures Entry(LocKey(items[i]), Tally(items, LocKey(items[i]))) in es {
      TallyOfMember(items, i);
      var k := LocKey(items[i]);
      assert k in ks;
      var j :| 0 <= j < |ks| && ks[j] == k;
      assert es[j] == Entry(k, Tally(items, k));
    }
    forall i | 0 <= i < |items| ensures LocKey(items[i]) in ks {
      TallyOfMember(items, i);
    }
    TalliesSum(ks, items);
  }

  predicate DistinctLocs(s: seq<Entry>) {
    forall i, j :: 0 <= i < |s| && 0 <= j < |s| && i != j ==> s[i].loc != s[j].loc
  }

  lemma DistinctTail(s: seq<Entry>)
    requires s != [] && DistinctLocs(s)
    ensures DistinctLocs(s[1..])
  {
    var t := s[1..];
    forall i, j | 0 <= i < |t| && 0 <= j < |t| && i != j ensures t[i].loc != t[j].loc {
      assert t[i] == s[i + 1] && t[j] == s[j + 1];
    }
  }

  lemma DistinctCons(x: Entry, r: seq<Entry>)
    requires DistinctLocs(r) && forall y :: y in r ==> y.loc != x.loc
    ensures DistinctLocs([x] + r)
  {
    var q := [x] + r;
    forall i, j | 0 <= i < |q| && 0 <= j < |q| && i != j ensures q[i].loc != q[j].loc {
      if i > 0 && j > 0 {
        assert q[i] == r[i - 1] && q[j] == r[j - 1];
      } else if i == 0 {
        assert q[j] == r[j - 1] && q[j] in r;
      } else {
        assert q[i] == r[i - 1] && q[i] in r;
      }
    }
  }

  lemma {:induction false} InsertDistinct(e: Entry, s: seq<Entry>)
    requires DistinctLocs(s) && forall x :: x in s ==> x.loc != e.loc
    ensures DistinctLocs(InsertByCount(e, s))
    decreases |s|
  {
    if s != [] && s[0].count > e.count {
      var t := s[1..];
      DistinctTail(s);
      InsertDistinct(e, t);
      InsertByCountSpec(e, t);
      var r := InsertByCount(e, t);
      forall x | x in r ensures x.loc != s[0].loc {
        if x != e {
          var k :| 0 <= k < |t| && t[k] == x;
          assert s[k + 1] == x;
        }
      }
      DistinctCons(s[0], r);
    } else {
      DistinctCons(e, s);
    }
  }

  lemma {:induction false} ByCountDistinct(s: seq<Entry>)
    requires DistinctLocs(s)
    ensures DistinctLocs(ByCount(s))
    decreases |s|
  {
    if s != [] {
      var t := s[1..];
      DistinctTail(s);
      ByCountDistinct(t);
      ByCountSpec(t);
      forall x | x in ByCount(t) ensures x.loc != s[0].loc {
        var k :| 0 <= k < |t| && t[k] == x;
        assert s[k + 1] == x;
      }
      InsertDistinct(s[0], ByCount(t));
    }
  }

  /** No two histogram entries share a location. */
  lemma HistogramDistinct(items: seq<Item>)
    ensures DistinctLocs(Histogram(items))
  {
    var ks := Keys(items);
    var es := Entries(ks, items);
    KeysSpec(items);
    EntriesSpec(ks, items);
    assert DistinctLocs(es);
    ByCountDistinct(es);
  }

  /** An item always makes the tally of its key positive. */
  lemma {:induction false} TallyOfMember(items: seq<Item>, i: nat)
    requires i < |items|
    ensures Tally(items, LocKey(items[i])) > 0
    decreases |items|
  {
    if i < |items| - 1 {
      assert items[..|items| - 1][i] == items[i];
      TallyOfMember(items[..|items| - 1], i);
    }
  }

  /** `uniqueLocations(items)`: a pass that counts each key in a map object, remembering
      the order keys were first set, then the sort of its entries. */
  /** One turn of the counting loop, on values: the key of item `i` is counted and, when
      new, appended. */
  lemma TallyStep(items: seq<Item>, i: nat, ks: seq<string>, counts: map<string, nat>)
    requires i < |items| && ks == Keys(items[..i])
    requires forall k :: k in counts <==> k in ks
    requires forall k :: k in ks ==> counts[k] == Tally(items[..i], k)
    ensures var l := LocKey(items[i]);
            var counts' := counts[l := (if l in counts then counts[l] else 0) + 1];
            var ks' := if l in ks then ks else ks + [l];
            && ks' == Keys(items[..i + 1])
            && (forall k :: k in counts' <==> k in ks')
            && (forall k :: k in ks' ==> counts'[k] == Tally(items[..i + 1], k))
  {
    var l := LocKey(items[i]);
    assert items[..i + 1][..i] == items[..i];
    KeysSpec(items[..i]);
    var counts' := counts[l := (if l in counts then counts[l] else 0) + 1];
    var ks' := if l in ks then ks else ks + [l];
    forall k | k in ks' ensures counts'[k] == Tally(items[..i + 1], k) {
      assert Tally(items[..i + 1], k) == Tally(items[..i], k) + (if l == k then 1 else 0);
    }
  }

  /** The `forEach` of `uniqueLocations`: the map object's keys in insertion order, and the
      count stored under each. */
  method CountLocations(items: seq<Item>) returns (ks: seq<string>, counts: map<string, nat>)
    ensures ks == Keys(items)
    ensures forall k :: k in counts <==> k in ks
    ensures forall k :: k in ks ==> counts[k] == Tally(items, k)
  {
    ks, counts := [], map[];
    for i := 0 to |items|
      invariant ks == Keys(items[..i])
      invariant forall k :: k in counts <==> k in ks
      invariant forall k :: k in ks ==> counts[k] == Tally(items[..i], k)
    {
      var l := LocKey(items[i]);
      TallyStep(items, i, ks, counts);
      counts := counts[l := (if l in counts then counts[l] else 0) + 1];
      if l !in ks {
        ks := ks + [l];
      }
    }
    assert items[..|items|] == items;
  }

  /** `Object.entries` of the map object: one entry per key, in key order. */
  method EntriesOf(ks: seq<string>, counts: map<string, nat>, ghost items: seq<Item>) returns (es: seq<Entry>)
    requires forall k :: k in ks ==> k in counts && counts[k] == Tally(items, k)
    ensures es == Entries(ks, items)
  {
    es := [];
    for j := 0 to |ks|
      invariant |es| == j
      invariant forall t :: 0 <= t < j ==> es[t] == Entry(ks[t], Tally(items, ks[t]))
    {
      es := es + [Entry(ks[j], counts[ks[j]])];
    }
    EntriesSpec(ks, items);
  }

  /** `uniqueLocations`: count, take the entries and sort them by count. */
  method UniqueLocations(items: seq<Item>) returns (h: seq<Entry>)
    ensures h == Histogram(items)
  {
    var ks, counts := CountLocations(items);
    var es := EntriesOf(ks, counts, items);
    h := ByCount(es);
  }

  // ---------------------------------------------------------------------------------------
  // The two slices of render

  function Min(a: nat, b: nat): nat {
    if a <= b then a else b
  }

  /** `items.slice(0, 8)`. */
  function Recent(items: seq<Item>): seq<Item> {
    items[..Min(8, |items|)]
  }

  /** `topLoc.slice(0, 5)`. */
  function Top(h: seq<Entry>): seq<Entry> {
    h[..Min(5, |h|)]
  }

  /** The recent list holds the first items in stored order: all of them when there are at
      most eight, else exactly the first eight. */
  lemma RecentSpec(items: seq<Item>)
    ensures |Recent(items)| <= 8 && Recent(items) <= items
    ensures |items| <= 8 ==> Recent(items) == items
    ensures |items| > 8 ==> |Recent(items)| == 8
  {
  }

  /** The top list holds the five largest counts of the histogram, largest first, with no
      location twice; every location left out has a count no larger than the last shown. */
  lemma TopSpec(items: seq<Item>)
    ensures var t := Top(Histogram(items));
            && |t| == Min(5, |Histogram(items)|) && t <= Histogram(items)
            && SortedByCount(t) && DistinctLocs(t)
            && (forall e :: e in t ==> e.count == Tally(items, e.loc) && e.count > 0)
            && (forall i :: |t| <= i < |Histogram(items)| ==> Histogram(items)[i].count <= t[|t| - 1].count)
  {
    var h := Histogram(items);
    HistogramSpec(items);
    HistogramDistinct(items);
    var t := Top(h);
    forall i | |t| <= i < |h| ensures h[i].count <= t[|t| - 1].count {
      SortedFrom(h, |t| - 1, i);
    }
  }

  lemma {:induction false} SortedFrom(s: seq<Entry>, i: nat, j: nat)
    requires SortedByCount(s) && i <= j < |s|
    ensures s[j].count <= s[i].count
    decreases j - i
  {
    if i < j {
      SortedFrom(s, i + 1, j);
    }
  }

  /** What `#recentList` or `#topLocations` shows: a placeholder text or one row per
      element. */
  datatype Panel<T> = Note(text: string) | Rows(rows: seq<T>)

  function RecentPanel(items: seq<Item>): Panel<Item> {
    if Recent(items) == [] then Note("No items yet") else Rows(Recent(items))
  }

  function TopPanel(items: seq<Item>): Panel<Entry> {
    if Histogram(items) == [] then Note("(No data yet)") else Rows(Top(Histogram(items)))
  }

  /** The placeholders show exactly when there are no items. */
  lemma PanelsEmpty(items: seq<Item>)
    ensures RecentPanel(items).Note? <==> items == []
    ensures TopPanel(items).Note? <==> items == []
    ensures RecentPanel(items).Rows? ==> |RecentPanel(items).rows| > 0
  {
    HistogramSpec(items);
    if items != [] {
      assert Entry(LocKey(items[0]), Tally(items, LocKey(items[0]))) in Histogram(items);
    }
  }

  // ---------------------------------------------------------------------------------------
  // Tabs and sections

  /** The page's elements the controller looks up. */
  datatype Part = TotalCount | LostCount | FoundCount | RecentList | TopLocations | GoToApp
                | OverviewSection | RecentSection | LocationsSection

  /** How many of the five elements `render` writes, in order, it reaches before
      `getElementById` returns null for one and the write throws; 5 when all exist. */
  function Reach(els: set<Part>): nat {
    if TotalCount !in els then 0
    else if LostCount !in els then 1
    else if FoundCount !in els then 2
    else if RecentList !in els then 3
    else if TopLocations !in els then 4
    else 5
  }

  /** The keys of the `sections` object, in order, with their elements. */
  const SectionOrder: seq<(string, Part)> :=
    [("overview", OverviewSection), ("recent", RecentSection), ("locations", LocationsSection)]

  const Sections: set<Part> := {OverviewSection, RecentSection, LocationsSection}

  function SectionName(p: Part): string
    requires p in Sections
  {
    match p
    case OverviewSection => "overview"
    case RecentSection => "recent"
    case LocationsSection => "locations"
  }

  /** A tab belongs to a section when its section attribute equals the name; both may be missing. */
  predicate TabFor(tab: Option<string>, name: Option<string>) {
    tab == name
  }

  /** The URL fragment `replaceState` writes, `#${name}`. */
  function HashOf(name: Option<string>): string {
    "#" + (if name.Some? then name.value else "undefined")
  }

  /** The text with its first `#` removed. */
  function DropFirstHash(s: string): (r: string)
    decreases |s|
  {
    if s == [] then [] else if s[0] == '#' then s[1..] else [s[0]] + DropFirstHash(s[1..])
  }

  /** The section a mount shows first: the fragment without its first `#`, or `overview` when
      that is empty. */
  function InitialSection(hash: string): string {
    var n := DropFirstHash(hash);
    if n == [] then "overview" else n
  }

  /** An empty hash or a bare `#` opens the overview; `#name` opens `name`, so the fragment
      `showSection` writes brings back the same tab. */
  lemma InitialSectionSpec(name: string)
    ensures InitialSection("") == "overview" && InitialSection("#") == "overview"
    ensures name != [] ==> InitialSection(HashOf(Some(name))) == name
    ensures InitialSection(HashOf(None)) == "undefined"
  {
  }

  /** One step of `onKey` from index `idx` of `n` tabs. */
  function Step(idx: nat, n: nat, key: string): nat
    requires idx < n
  {
    if key == "ArrowRight" then (idx + 1) % n
    else if key == "ArrowLeft" then (idx - 1 + n) % n
    else if key == "Home" then 0
    else if key == "End" then n - 1
    else idx
  }

  /** The tab `onKey` focuses, if any: none when focus is not on a tab (index -1) or the
      index does not change. */
  function NextFocus(idx: int, n: nat, key: string): Option<nat>
    requires -1 <= idx < n
  {
    if idx == -1 then None
    else if Step(idx, n, key) != idx then Some(Step(idx, n, key)) else None
  }

  /** The focused index stays a tab index, and focus off the tabs or a key other than the
      four moves nothing. */
  lemma NextFocusSpec(idx: int, n: nat, key: string)
    requires -1 <= idx < n
    ensures idx == -1 ==> NextFocus(idx, n, key) == None
    ensures NextFocus(idx, n, key).Some? ==> NextFocus(idx, n, key).value < n && NextFocus(idx, n, key).value != idx
    ensures key != "ArrowRight" && key != "ArrowLeft" && key != "Home" && key != "End" ==> NextFocus(idx, n, key) == None
  {
  }

  /** ArrowRight moves one tab right and wraps from the last tab to the first; ArrowLeft
      moves one tab left and wraps from the first to the last. */
  lemma ArrowSteps(idx: nat, n: nat)
    requires idx < n
    ensures Step(idx, n, "ArrowRight") == (if idx == n - 1 then 0 else idx + 1)
    ensures Step(idx, n, "ArrowLeft") == (if idx == 0 then n - 1 else idx - 1)
  {
    assert "ArrowLeft" != "ArrowRight";
    if idx == n - 1 {
      assert (idx + 1) % n == 0 by { assert idx + 1 == n; }
    } else {
      ModSmall(idx + 1, n);
    }
    if idx == 0 {
      ModSmall(n - 1, n);
    } else {
      assert (idx - 1 + n) % n == idx - 1 by {
        assert idx - 1 + n == (idx - 1) + 1 * n;
        ModShift(idx - 1, n);
      }
    }
  }

  /** Home goes to the first tab and End to the last. */
  lemma HomeEndSteps(idx: nat, n: nat)
    requires idx < n
    ensures Step(idx, n, "Home") == 0 && Step(idx, n, "End") == n - 1
  {
    assert "Home" != "ArrowRight" && "Home" != "ArrowLeft" && "End" != "Home";
    assert "End" != "ArrowRight" && "End" != "ArrowLeft";
  }

  lemma ModSmall(a: nat, n: nat)
    requires a < n
    ensures a % n == a
  {
  }

  lemma ModShift(a: nat, n: nat)
    requires a < n
    ensures (a + n) % n == a
  {
  }

  /** ArrowLeft undoes ArrowRight. */
  lemma LeftUndoesRight(idx: nat, n: nat)
    requires idx < n
    ensures Step(Step(idx, n, "ArrowRight"), n, "ArrowLeft") == idx
  {
    ArrowSteps(idx, n);
    ArrowSteps(Step(idx, n, "ArrowRight"), n);
  }

  /** The focus after `onKey` runs: moved when `NextFocus` names a tab. */
  function AfterKey(focus: int, n: nat, key: string): int {
    var idx := if 0 <= focus < n then focus else -1;
    var next := NextFocus(idx, n, key);
    if next.Some? then next.value else focus
  }

  /** The focus after `onKey` runs `c` times in a row. */
  function AfterKeys(focus: int, n: nat, key: string, c: nat): int
    decreases c
  {
    if c == 0 then focus else AfterKey(AfterKeys(focus, n, key, c - 1), n, key)
  }

  // ---------------------------------------------------------------------------------------
  // The controller

  datatype EventKind = Click | Keydown

  /** A tab listener: the mount that attached it, the tab's index and the event type. */
  datatype Handler = Handler(mount: nat, tab: nat, kind: EventKind)

  /** One `{el, handler, onKey}` record of `_tabHandlers`. */
  datatype TabRecord = TabRecord(mount: nat, tab: nat)

  /** Both listeners of a record. */
  function Listeners(r: TabRecord): set<Handler> {
    {Handler(r.mount, r.tab, Click), Handler(r.mount, r.tab, Keydown)}
  }

  /** The listeners of the records `rs`. */
  function ListenersOf(rs: seq<TabRecord>): set<Handler> {
    set r, k | r in rs && k in {Click, Keydown} :: Handler(r.mount, r.tab, k)
  }

  /** A handler is among the listeners of `rs` exactly when its record is in `rs`. */
  lemma ListenersOfSpec(rs: seq<TabRecord>)
    ensures forall h :: h in ListenersOf(rs) <==> TabRecord(h.mount, h.tab) in rs
  {
    forall h: Handler | TabRecord(h.mount, h.tab) in rs ensures h in ListenersOf(rs) {
      var r := TabRecord(h.mount, h.tab);
      match h.kind
      case Click => assert h == Handler(r.mount, r.tab, Click);
      case Keydown => assert h == Handler(r.mount, r.tab, Keydown);
    }
  }

  /** One more record adds its two listeners. */
  lemma ListenersOfSnoc(rs: seq<TabRecord>, r: TabRecord)
    ensures ListenersOf(rs + [r]) == ListenersOf(rs) + Listeners(r)
  {
    ListenersOfSpec(rs + [r]);
    ListenersOfSpec(rs);
    forall h: Handler ensures h in Listeners(r) <==> TabRecord(h.mount, h.tab) == r {
      match h.kind
      case Click =>
      case Keydown =>
    }
    forall h: Handler ensures TabRecord(h.mount, h.tab) in rs + [r] <==> TabRecord(h.mount, h.tab) in rs || TabRecord(h.mount, h.tab) == r {
    }
  }

  /** The records one mount with generation `g` creates for `n` tabs, in tab order. */
  function Records(g: nat, n: nat): seq<TabRecord>
    decreases n
  {
    if n == 0 then [] else Records(g, n - 1) + [TabRecord(g, n - 1)]
  }

  /** Record `i` is tab `i` of mount `g`. */
  lemma {:induction false} RecordsSpec(g: nat, n: nat)
    ensures |Records(g, n)| == n && forall i :: 0 <= i < n ==> Records(g, n)[i] == TabRecord(g, i)
    decreases n
  {
    if n > 0 {
      RecordsSpec(g, n - 1);
    }
  }

  /** The number of mounts below `m` with a `k` listener attached to tab `t`: the calls one
      such event makes. */
  function Listening(attached: set<Handler>, t: nat, k: EventKind, m: nat): nat
    decreases m
  {
    if m == 0 then 0
    else Listening(attached, t, k, m - 1) + (if Handler(m - 1, t, k) in attached then 1 else 0)
  }

  /** The text of the three counters and the two lists `render` writes. */
  datatype Stats = Stats(total: string, lost: string, found: string, recent: Panel<Item>, top: Panel<Entry>)

  /** What a complete `render()` of these items shows. */
  function Summary(items: seq<Item>): Stats {
    Stats(NatToString(|items|), NatToString(CountStatus(items, Lost)), NatToString(CountStatus(items, Found)),
          RecentPanel(items), TopPanel(items))
  }

  /** The view after a `render()` that reached `reach` of its five writes, starting from
      `s`. */
  function Written(s: Stats, reach: nat, items: seq<Item>): Stats {
    var full := Summary(items);
    Stats(if reach >= 1 then full.total else s.total,
          if reach >= 2 then full.lost else s.lost,
          if reach >= 3 then full.found else s.found,
          if reach >= 4 then full.recent else s.recent,
          if reach >= 5 then full.top else s.top)
  }

  /** The counters read back as the number of items and the two status counts, whose sum
      is at most the first; the lists show a placeholder exactly when there are no
      items. */
  lemma SummarySpec(items: seq<Item>)
    ensures var r := Summary(items);
            && DigitsValue(r.total) == |items|
            && DigitsValue(r.lost) == CountStatus(items, Lost)
            && DigitsValue(r.found) == CountStatus(items, Found)
            && DigitsValue(r.lost) + DigitsValue(r.found) <= DigitsValue(r.total)
            && (r.recent.Note? <==> items == []) && (r.top.Note? <==> items == [])
  {
    NatToStringRoundTrip(|items|);
    NatToStringRoundTrip(CountStatus(items, Lost));
    NatToStringRoundTrip(CountStatus(items, Found));
    CountsBound(items);
    PanelsEmpty(items);
  }

  /** A render that throws before a write leaves that part as it was; one that reaches the
      end shows the whole summary. */
  lemma WrittenSpec(s: Stats, reach: nat, items: seq<Item>)
    ensures reach >= 5 ==> Written(s, reach, items) == Summary(items)
    ensures reach == 0 ==> Written(s, reach, items) == s
    ensures reach < 5 ==> Written(s, reach, items).top == s.top
  {
  }

  /** The present sections not hidden by `display: none`, the per-tab `aria-selected` (and
      `active` class) and the fragment of the URL. */
  datatype View = View(shown: set<Part>, selected: seq<bool>, hash: string)

  /** `showSection(name)` seen on the view: exactly the present section keyed `name` is
      displayed, exactly the tabs whose `data-section` is `name` are selected, and the
      fragment is `#name`. */
  predicate Showing(v: View, els: set<Part>, tabs: seq<Option<string>>, name: Option<string>) {
    && (forall p :: p in Sections && p in els ==> (p in v.shown <==> name == Some(SectionName(p))))
    && |v.selected| == |tabs|
    && (forall i :: 0 <= i < |tabs| ==> (v.selected[i] <==> TabFor(tabs[i], name)))
    && v.hash == HashOf(name)
  }

  /** The module's registrations: `_tabHandlers`, the tab listeners the browser has
      attached, the number of mounts that attached tab listeners, and the `#goToApp` click
      listeners. */
  datatype Registry = Registry(records: seq<TabRecord>, attached: set<Handler>, mounts: nat, gotoListeners: nat)

  /** A registry in which every attached listener comes from an earlier mount. */
  predicate Numbered(r: Registry) {
    forall h :: h in r.attached ==> h.mount <= r.mounts
  }

  /** The registrations after a `mountDashboard()` whose render succeeded, on a page with `n`
      tabs and, if `goto`, a `#goToApp` button: the new records replace `_tabHandlers`
      without the old listeners being detached. */
  function AfterMount(r: Registry, n: nat, goto: bool): Registry {
    var g := r.gotoListeners + (if goto then 1 else 0);
    if n == 0 then r.(gotoListeners := g)
    else
      var rs := Records(r.mounts + 1, n);
      Registry(rs, r.attached + ListenersOf(rs), r.mounts + 1, g)
  }

  /** The registrations after `unmountDashboard()`. */
  function AfterUnmount(r: Registry): Registry {
    r.(records := [], attached := r.attached - ListenersOf(r.records))
  }

  /** Unmounting is safe on an empty list and a second unmount changes nothing. */
  lemma UnmountSpec(r: Registry)
    ensures r.records == [] ==> AfterUnmount(r) == r
    ensures AfterUnmount(AfterUnmount(r)) == AfterUnmount(r)
  {
    assert ListenersOf([]) == {};
  }

  /** A mount and an unmount restore the listeners the page had (except `#goToApp`), and
      the mount keeps the registry numbered. */
  lemma MountUnmount(r: Registry, n: nat, goto: bool)
    requires Numbered(r) && r.records == []
    ensures Numbered(AfterMount(r, n, goto))
    ensures AfterUnmount(AfterMount(r, n, goto)).attached == r.attached
  {
    ListenersOfRecords(r.mounts + 1, n);
    assert ListenersOf([]) == {};
  }

  /** Mounting twice is not the same as mounting once: the first mount's listeners are never
      detached, even by a later unmount, and a second `#goToApp` listener is added. */
  lemma MountNotIdempotent(r: Registry, n: nat, goto: bool)
    requires Numbered(r) && r.records == [] && n > 0
    ensures var twice := AfterUnmount(AfterMount(AfterMount(r, n, goto), n, goto));
            && twice.attached == r.attached + ListenersOf(Records(r.mounts + 1, n))
            && Handler(r.mounts + 1, 0, Keydown) in twice.attached
            && Handler(r.mounts + 1, 0, Keydown) !in AfterUnmount(AfterMount(r, n, goto)).attached
            && twice.gotoListeners == r.gotoListeners + (if goto then 2 else 0)
  {
    ListenersOfRecords(r.mounts + 1, n);
    ListenersOfRecords(r.mounts + 2, n);
    MountUnmount(r, n, goto);
  }

  /** After two mounts on a page without listeners, a key on a tab runs `onKey` twice, so
      ArrowRight moves the focus two tabs instead of one. */
  lemma TwoMountsTwoSteps(r: Registry, n: nat, t: nat)
    requires r.attached == {} && 1 < n && t < n
    ensures var a := AfterMount(AfterMount(r, n, false), n, false);
            AfterKeys(t, n, "ArrowRight", Listening(a.attached, t, Keydown, a.mounts + 1)) == (t + 2) % n
  {
    var a := AfterMount(AfterMount(r, n, false), n, false);
    ListenersOfRecords(r.mounts + 1, n);
    ListenersOfRecords(r.mounts + 2, n);
    forall g ensures Handler(g, t, Keydown) in a.attached <==> g == r.mounts + 1 || g == r.mounts + 2 {
    }
    ListeningTwo(a.attached, t, Keydown, r.mounts + 1, a.mounts + 1);
    ArrowRightTwice(t, n);
  }

  /** Two `onKey` runs for ArrowRight move two tabs, wrapping around. */
  lemma ArrowRightTwice(t: nat, n: nat)
    requires 1 < n && t < n
    ensures AfterKeys(t, n, "ArrowRight", 2) == (t + 2) % n
  {
    var s1 := Step(t, n, "ArrowRight");
    ArrowSteps(t, n);
    assert AfterKey(t, n, "ArrowRight") == s1;
    ArrowSteps(s1, n);
    var s2 := Step(s1, n, "ArrowRight");
    if t + 2 < n {
      ModSmall(t + 2, n);
    } else {
      ModShift(t + 2 - n, n);
    }
    assert AfterKey(s1, n, "ArrowRight") == s2 by {
      if n == 2 {
        assert s2 == t;
      }
    }
  }

  class Dashboard {
    /** The elements present in the page. */
    var els: set<Part>
    var stored: Stored
    /** The `data-section` of each `.dashboard-tab`, in document order. */
    var tabs: seq<Option<string>>
    var stats: Stats
    var view: View
    var registry: Registry
    /** The tab holding focus; any other value stands for an element that is not a tab. */
    var focus: int

    constructor (dom: set<Part>, store: Stored, page: seq<Option<string>>, fragment: string)
      ensures els == dom && stored == store && tabs == page && focus == -1
      ensures stats == Stats([], [], [], Note([]), Note([]))
      ensures view == View(dom * Sections, seq(|page|, i => false), fragment)
      ensures registry == Registry([], {}, 0, 0)
    {
      els := dom;
      stored := store;
      tabs := page;
      stats := Stats([], [], [], Note([]), Note([]));
      view := View(dom * Sections, seq(|page|, i => false), fragment);
      registry := Registry([], {}, 0, 0);
      focus := -1;
    }

    /** `render()`: each of its five writes throws when its element is
        missing, so a part changes only when it and every element written before it
        exist. */
    method Render() returns (threw: bool)
      modifies this`stats
      ensures threw <==> Reach(els) < 5
      ensures stats == Written(old(stats), Reach(els), StoredItems(stored))
    {
      var items := StoredItems(stored);
      var total, lost, found := CountByStatus(items);
      var s := stats;
      if TotalCount !in els {
        return true;
      }
      s := s.(total := NatToString(total));
      stats := s;
      if LostCount !in els {
        return true;
      }
      s := s.(lost := NatToString(lost));
      stats := s;
      if FoundCount !in els {
        return true;
      }
      s := s.(found := NatToString(found));
      stats := s;
      if RecentList !in els {
        return true;
      }
      var recent := items[..Min(8, |items|)];
      s := s.(recent := if |recent| == 0 then Note("No items yet") else Rows(recent));
      stats := s;
      var top := UniqueLocations(items);
      if TopLocations !in els {
        return true;
      }
      s := s.(top := if |top| == 0 then Note("(No data yet)") else Rows(top[..Min(5, |top|)]));
      stats := s;
      threw := false;
    }

    /** `showSection(name)`. Sections missing from the page keep their state. */
    method ShowSection(name: Option<string>)
      modifies this`view
      ensures Showing(view, els, tabs, name)
      ensures forall p :: !(p in Sections && p in els) ==> (p in view.shown <==> p in old(view).shown)
    {
      var shown := view.shown;
      for k := 0 to |SectionOrder|
        invariant forall j :: 0 <= j < k && SectionOrder[j].1 in els ==>
                    (SectionOrder[j].1 in shown <==> name == Some(SectionOrder[j].0))
        invariant forall p :: (forall j :: 0 <= j < k ==> SectionOrder[j].1 != p) || p !in els ==>
                    (p in shown <==> p in old(view).shown)
      {
        var (key, el) := SectionOrder[k];
        if el in els {
          shown := if name == Some(key) then shown + {el} else shown - {el};
        }
      }
      forall p | p in Sections && p in els ensures p in shown <==> name == Some(SectionName(p)) {
        var j := if p == OverviewSection then 0 else if p == RecentSection then 1 else 2;
        assert SectionOrder[j] == (SectionName(p), p);
      }
      var sel: seq<bool> := [];
      for i := 0 to |tabs|
        invariant |sel| == i && forall j :: 0 <= j < i ==> (sel[j] <==> TabFor(tabs[j], name))
      {
        sel := sel + [TabFor(tabs[i], name)];
      }
      view := View(shown, sel, HashOf(name));
    }

    /** `mountDashboard()`: render (a missing element throws and ends the mount), a click
        listener on `#goToApp`, and, when there are tabs, a click and a keydown listener per
        tab recorded in `_tabHandlers` and the tab named by the fragment shown. */
    method Mount() returns (threw: bool)
      modifies this`stats, this`view, this`registry
      ensures threw <==> Reach(els) < 5
      ensures stats == Written(old(stats), Reach(els), StoredItems(stored))
      ensures threw ==> view == old(view) && registry == old(registry)
      ensures !threw ==> registry == AfterMount(old(registry), |tabs|, GoToApp in els)
      ensures !threw && |tabs| == 0 ==> view == old(view)
      ensures !threw && |tabs| > 0 ==> Showing(view, els, tabs, Some(InitialSection(old(view).hash)))
      ensures forall p :: !(p in Sections && p in els) ==> (p in view.shown <==> p in old(view).shown)
    {
      threw := Render();
      if threw {
        return;
      }
      Wire();
    }

    /** What `mountDashboard` does once the counters are written: the `#goToApp` listener,
        the tab listeners and their records, and the initial section. */
    method Wire()
      modifies this`view, this`registry
      ensures registry == AfterMount(old(registry), |tabs|, GoToApp in els)
      ensures |tabs| == 0 ==> view == old(view)
      ensures |tabs| > 0 ==> Showing(view, els, tabs, Some(InitialSection(old(view).hash)))
      ensures forall p :: !(p in Sections && p in els) ==> (p in view.shown <==> p in old(view).shown)
    {
      if GoToApp in els {
        registry := registry.(gotoListeners := registry.gotoListeners + 1);
      }
      if |tabs| > 0 {
        var g := registry.mounts + 1;
        var recs := AttachTabs(g);
        registry := registry.(records := recs, mounts := g);
        ShowSection(Some(InitialSection(view.hash)));
      }
    }

    /** `tabs.forEach(...)`: a click and a keydown listener per tab, and their records. */
    method AttachTabs(g: nat) returns (recs: seq<TabRecord>)
      modifies this`registry
      ensures recs == Records(g, |tabs|)
      ensures registry == old(registry).(attached := old(registry).attached + ListenersOf(recs))
    {
      recs := [];
      for i := 0 to |tabs|
        invariant recs == Records(g, i)
        invariant registry == old(registry).(attached := old(registry).attached + ListenersOf(recs))
      {
        var r := TabRecord(g, i);
        ListenersOfSnoc(recs, r);
        registry := registry.(attached := registry.attached + Listeners(r));
        recs := recs + [r];
      }
    }

    /** `unmountDashboard()`: detaches both listeners of every record and empties the list;
        the `#goToApp` listener stays attached. */
    method Unmount()
      modifies this`registry
      ensures registry == AfterUnmount(old(registry))
    {
      var rs := registry.records;
      for i := 0 to |rs|
        invariant registry == old(registry).(attached := old(registry).attached - ListenersOf(rs[..i]))
      {
        assert rs[..i + 1] == rs[..i] + [rs[i]];
        ListenersOfSnoc(rs[..i], rs[i]);
        registry := registry.(attached := registry.attached - Listeners(rs[i]));
      }
      assert rs[..|rs|] == rs;
      registry := registry.(records := []);
    }

    /** A click on tab `i`: every attached click listener of that tab calls
        `showSection(t.dataset.section)`. */
    method ClickTab(i: nat)
      requires i < |tabs|
      modifies this`view
      ensures Listening(registry.attached, i, Click, registry.mounts + 1) > 0 ==> Showing(view, els, tabs, tabs[i])
      ensures Listening(registry.attached, i, Click, registry.mounts + 1) == 0 ==> view == old(view)
      ensures forall p :: !(p in Sections && p in els) ==> (p in view.shown <==> p in old(view).shown)
    {
      for g := 0 to registry.mounts + 1
        invariant Listening(registry.attached, i, Click, g) > 0 ==> Showing(view, els, tabs, tabs[i])
        invariant Listening(registry.attached, i, Click, g) == 0 ==> view == old(view)
        invariant forall p :: !(p in Sections && p in els) ==> (p in view.shown <==> p in old(view).shown)
      {
        if Handler(g, i, Click) in registry.attached {
          ShowSection(tabs[i]);
        }
      }
    }

    /** A key pressed on the focused tab: every attached keydown listener of that tab runs
        `onKey` in mount order, each reading the focus the previous one left. */
    method PressKey(key: string)
      modifies this`focus
      ensures 0 <= old(focus) < |tabs| ==>
                focus == AfterKeys(old(focus), |tabs|, key, Listening(registry.attached, old(focus), Keydown, registry.mounts + 1))
      ensures !(0 <= old(focus) < |tabs|) ==> focus == old(focus)
    {
      if 0 <= focus < |tabs| {
        var t := focus;
        for g := 0 to registry.mounts + 1
          invariant focus == AfterKeys(t, |tabs|, key, Listening(registry.attached, t, Keydown, g))
        {
          if Handler(g, t, Keydown) in registry.attached {
            focus := AfterKey(focus, |tabs|, key);
          }
        }
      }
    }
  }

  /** A handler belongs to the records of mount `g` over `n` tabs exactly when it carries
      that mount and a tab index below `n`. */
  lemma ListenersOfRecords(g: nat, n: nat)
    ensures forall h :: h in ListenersOf(Records(g, n)) <==> h.mount == g && h.tab < n
  {
    ListenersOfSpec(Records(g, n));
    RecordsSpec(g, n);
    forall h: Handler | h.mount == g && h.tab < n ensures TabRecord(h.mount, h.tab) in Records(g, n) {
      assert Records(g, n)[h.tab] == TabRecord(h.mount, h.tab);
    }
  }

  /** Two consecutive mounts listening on a tab make two calls once both are below `m`. */
  lemma {:induction false} ListeningTwo(attached: set<Handler>, t: nat, k: EventKind, a: nat, m: nat)
    requires forall g :: Handler(g, t, k) in attached <==> g == a || g == a + 1
    ensures Listening(attached, t, k, m) == (if m <= a then 0 else if m == a + 1 then 1 else 2)
    decreases m
  {
    if m > 0 {
      ListeningTwo(attached, t, k, a, m - 1);
    }
  }
}
