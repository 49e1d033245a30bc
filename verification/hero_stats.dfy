/** The counters of the hero banner (`HeroStats.tsx`): items per platform, the
    `categoryCounts` record built by `reduce` (its keys in insertion order),
    the category breakdown sorted by count, and the top category. */
module HeroStats {
  import opened Wrappers
  import opened Seqs
  import opened StableSort
  import opened Items

  /** How many items are in bucket `c`. */
  function CountCategory(items: seq<SavedItem>, c: Category): nat {
    |Filter(items, InCategory(c))|
  }

  /** How many items come from platform `p`. */
  function CountPlatform(items: seq<SavedItem>, p: Platform): nat {
    |Filter(items, OnPlatform(p))|
  }

  lemma {:induction false} CountCategorySnoc(items: seq<SavedItem>, x: SavedItem, c: Category)
    ensures CountCategory(items + [x], c) == CountCategory(items, c) + if x.category == c then 1 else 0
  {
    FilterAppend(items, [x], InCategory(c));
    assert Filter([x], InCategory(c)) == (if x.category == c then [x] else []) + Filter([], InCategory(c));
  }

  lemma CountCategoryPositive(items: seq<SavedItem>, c: Category)
    ensures CountCategory(items, c) > 0 <==> exists i :: 0 <= i < |items| && items[i].category == c
  {
    var f := Filter(items, InCategory(c));
    if |f| > 0 {
      assert f[0] in f;
    }
    if i :| 0 <= i < |items| && items[i].category == c {
      assert items[i] in f;
    }
  }

  // ---------------------------------------------------------------------------
  // Items per platform

  datatype PlatformCounts = PlatformCounts(instagram: nat, twitter: nat, blog: nat)

  /** The banner's three platform counts: each field counts the items of its
      own platform, and together they account for every item. */
  function Platforms(items: seq<SavedItem>): (r: PlatformCounts)
    ensures r.instagram == CountPlatform(items, Instagram)
    ensures r.twitter == CountPlatform(items, Twitter)
    ensures r.blog == CountPlatform(items, Blog)
    ensures r.instagram + r.twitter + r.blog == |items|
    ensures r.instagram <= |items| && r.twitter <= |items| && r.blog <= |items|
  {
    PlatformsPartition(items);
    PlatformCounts(CountPlatform(items, Instagram), CountPlatform(items, Twitter), CountPlatform(items, Blog))
  }

  /** Every item comes from exactly one of the three platforms. */
  lemma {:induction false} PlatformsPartition(items: seq<SavedItem>)
    ensures CountPlatform(items, Instagram) + CountPlatform(items, Twitter) + CountPlatform(items, Blog) == |items|
    decreases |items|
  {
    if |items| > 0 {
      PlatformsPartition(items[1..]);
      forall p ensures CountPlatform(items, p) == CountPlatform(items[1..], p) + if items[0].platform == p then 1 else 0 {
        CountPlatformCons(items, p);
      }
    }
  }

  /** A platform's count is positive exactly when some item comes from it. */
  lemma CountPlatformPositive(items: seq<SavedItem>, p: Platform)
    ensures CountPlatform(items, p) > 0 <==> exists i :: 0 <= i < |items| && items[i].platform == p
  {
    var f := Filter(items, OnPlatform(p));
    if |f| > 0 {
      assert f[0] in f;
    }
    if i :| 0 <= i < |items| && items[i].platform == p {
      assert items[i] in f;
    }
  }

  /** The positions of the items that come from platform `p`. */
  function PlatformIndices(items: seq<SavedItem>, p: Platform): set<nat> {
    set i: nat | i < |items| && items[i].platform == p
  }

  /** A platform's count is the number of positions holding an item of that
      platform. */
  lemma {:induction false} CountPlatformIndices(items: seq<SavedItem>, p: Platform)
    ensures CountPlatform(items, p) == |PlatformIndices(items, p)|
    decreases |items|
  {
    if |items| > 0 {
      var init := items[..|items| - 1];
      var x := items[|items| - 1];
      CountPlatformIndices(init, p);
      CountPlatformSnoc(init, x, p);
      assert items == init + [x];
      IndicesSnoc(init, x, p);
    }
  }

  lemma CountPlatformSnoc(items: seq<SavedItem>, x: SavedItem, p: Platform)
    ensures CountPlatform(items + [x], p) == CountPlatform(items, p) + if x.platform == p then 1 else 0
  {
    FilterAppend(items, [x], OnPlatform(p));
    assert Filter([x], OnPlatform(p)) == (if x.platform == p then [x] else []) + Filter([], OnPlatform(p));
  }

  /** Appending an item adds its position to the index set when it is on `p`. */
  lemma IndicesSnoc(items: seq<SavedItem>, x: SavedItem, p: Platform)
    ensures |PlatformIndices(items + [x], p)| == |PlatformIndices(items, p)| + if x.platform == p then 1 else 0
  {
    var longer := items + [x];
    var s, t := PlatformIndices(items, p), PlatformIndices(longer, p);
    var n: nat := |items|;
    assert forall i: nat :: i < n ==> longer[i] == items[i];
    assert longer[n] == x;
    assert n !in s;
    if x.platform == p {
      assert t == s + {n};
    } else {
      assert t == s;
    }
  }

  lemma CountPlatformCons(items: seq<SavedItem>, p: Platform)
    requires |items| > 0
    ensures CountPlatform(items, p) == CountPlatform(items[1..], p) + if items[0].platform == p then 1 else 0
  {
    assert Filter(items, OnPlatform(p)) == (if items[0].platform == p then [items[0]] else []) + Filter(items[1..], OnPlatform(p));
  }

  // ---------------------------------------------------------------------------
  // The category record, in key-insertion order

  type Entry = (Category, nat)

  predicate HasKey(acc: seq<Entry>, c: Category) {
    exists i :: 0 <= i < |acc| && acc[i].0 == c
  }

  predicate DistinctKeys(acc: seq<Entry>) {
    forall i, j :: 0 <= i < j < |acc| ==> acc[i].0 != acc[j].0
  }

  function SumCounts(acc: seq<Entry>): nat
    decreases |acc|
  {
    if |acc| == 0 then 0 else acc[0].1 + SumCounts(acc[1..])
  }

  /** `acc[c] = (acc[c] || 0) + 1`: an existing key keeps its place and gains
      one, a new key is added last with count 1. */
  function Bump(acc: seq<Entry>, c: Category): (r: seq<Entry>)
    requires DistinctKeys(acc)
    ensures |r| == if HasKey(acc, c) then |acc| else |acc| + 1
    ensures forall i :: 0 <= i < |acc| ==> r[i].0 == acc[i].0 && r[i].1 == acc[i].1 + if acc[i].0 == c then 1 else 0
    ensures !HasKey(acc, c) ==> r[|acc|] == (c, 1)
    ensures SumCounts(r) == SumCounts(acc) + 1
    decreases |acc|
  {
    if |acc| == 0 then [(c, 1)]
    else if acc[0].0 == c then
      var r := [(c, acc[0].1 + 1)] + acc[1..];
      assert forall i :: 1 <= i < |acc| ==> r[i] == acc[i] && acc[i].0 != acc[0].0;
      assert r[1..] == acc[1..];
      r
    else
      var rest := Bump(acc[1..], c);
      assert HasKey(acc, c) <==> HasKey(acc[1..], c) by {
        if HasKey(acc, c) {
          var i :| 0 <= i < |acc| && acc[i].0 == c;
          assert acc[1..][i - 1].0 == c;
        }
        if HasKey(acc[1..], c) {
          var i :| 0 <= i < |acc[1..]| && acc[1..][i].0 == c;
          assert acc[i + 1].0 == c;
        }
      }
      assert ([acc[0]] + rest)[1..] == rest;
      [acc[0]] + rest
  }

  /** Bumping keeps the keys distinct and adds exactly the bumped key. */
  lemma BumpKeys(acc: seq<Entry>, c: Category)
    requires DistinctKeys(acc)
    ensures DistinctKeys(Bump(acc, c))
    ensures forall d :: HasKey(Bump(acc, c), d) <==> HasKey(acc, d) || d == c
  {
    BumpDistinct(acc, c);
    forall d ensures HasKey(Bump(acc, c), d) <==> HasKey(acc, d) || d == c {
      BumpHasKey(acc, c, d);
    }
  }

  lemma BumpDistinct(acc: seq<Entry>, c: Category)
    requires DistinctKeys(acc)
    ensures DistinctKeys(Bump(acc, c))
  {
    if HasKey(acc, c) {
      BumpSameKeys(acc, c);
    } else {
      BumpNewKey(acc, c);
    }
  }

  /** Bumping a present key changes no key. */
  lemma BumpSameKeys(acc: seq<Entry>, c: Category)
    requires DistinctKeys(acc) && HasKey(acc, c)
    ensures DistinctKeys(Bump(acc, c))
  {
    var r := Bump(acc, c);
    assert |r| == |acc|;
    forall i, j | 0 <= i < j < |r| ensures r[i].0 != r[j].0 {
      assert r[i].0 == acc[i].0 && r[j].0 == acc[j].0;
    }
  }

  /** Bumping an absent key appends it after the old, distinct keys. */
  lemma BumpNewKey(acc: seq<Entry>, c: Category)
    requires DistinctKeys(acc) && !HasKey(acc, c)
    ensures DistinctKeys(Bump(acc, c))
  {
    var r := Bump(acc, c);
    assert |r| == |acc| + 1 && r[|acc|].0 == c;
    forall i, j | 0 <= i < j < |r| ensures r[i].0 != r[j].0 {
      assert r[i].0 == acc[i].0;
      if j < |acc| {
        assert r[j].0 == acc[j].0;
      }
    }
  }

  lemma BumpHasKey(acc: seq<Entry>, c: Category, d: Category)
    requires DistinctKeys(acc)
    ensures HasKey(Bump(acc, c), d) <==> HasKey(acc, d) || d == c
  {
    BumpKeepsKey(acc, c, d);
    BumpAddsKey(acc, c);
    if d != c && HasKey(Bump(acc, c), d) {
      BumpOnlyAddsKey(acc, c, d);
    }
  }

  lemma BumpKeepsKey(acc: seq<Entry>, c: Category, d: Category)
    requires DistinctKeys(acc)
    ensures HasKey(acc, d) ==> HasKey(Bump(acc, c), d)
  {
    var r := Bump(acc, c);
    if HasKey(acc, d) {
      var i :| 0 <= i < |acc| && acc[i].0 == d;
      assert r[i].0 == d;
    }
  }

  lemma BumpAddsKey(acc: seq<Entry>, c: Category)
    requires DistinctKeys(acc)
    ensures HasKey(Bump(acc, c), c)
  {
    var r := Bump(acc, c);
    if HasKey(acc, c) {
      var i :| 0 <= i < |acc| && acc[i].0 == c;
      assert r[i].0 == c;
    } else {
      assert r[|acc|].0 == c;
    }
  }

  lemma BumpOnlyAddsKey(acc: seq<Entry>, c: Category, d: Category)
    requires DistinctKeys(acc)
    requires HasKey(Bump(acc, c), d) && d != c
    ensures HasKey(acc, d)
  {
    var r := Bump(acc, c);
    var i :| 0 <= i < |r| && r[i].0 == d;
    assert i < |acc|;
    assert acc[i].0 == d;
  }

  /** Index of the first item in bucket `c`, or `|items|` when there is none. */
  function FirstIndex(items: seq<SavedItem>, c: Category): (r: nat)
    ensures r <= |items|
    ensures r < |items| ==> items[r].category == c
    ensures forall j :: 0 <= j < r ==> items[j].category != c
    decreases |items|
  {
    if |items| == 0 then 0
    else if items[0].category == c then 0
    else 1 + FirstIndex(items[1..], c)
  }

  lemma FirstIndexSnoc(items: seq<SavedItem>, x: SavedItem, c: Category)
    ensures FirstIndex(items, c) < |items| ==> FirstIndex(items + [x], c) == FirstIndex(items, c)
    ensures FirstIndex(items, c) == |items| && x.category == c ==> FirstIndex(items + [x], c) == |items|
  {
    var f, g := FirstIndex(items, c), FirstIndex(items + [x], c);
    if f < |items| {
      assert (items + [x])[f] == items[f];
      assert forall j :: 0 <= j < |items| ==> (items + [x])[j] == items[j];
    } else if x.category == c {
      assert (items + [x])[|items|] == x;
      assert forall j :: 0 <= j < |items| ==> (items + [x])[j] == items[j];
    }
  }

  /** Each entry holds its bucket's size, which is positive. */
  predicate CountsAgree(items: seq<SavedItem>, acc: seq<Entry>) {
    forall i :: 0 <= i < |acc| ==> acc[i].1 == CountCategory(items, acc[i].0) && acc[i].1 > 0
  }

  /** The keys are exactly the categories that occur. */
  predicate KeysOccur(items: seq<SavedItem>, acc: seq<Entry>) {
    forall c :: HasKey(acc, c) <==> CountCategory(items, c) > 0
  }

  /** Keys appear in the order their categories are first seen in `items`. */
  predicate FirstSeenOrder(items: seq<SavedItem>, acc: seq<Entry>) {
    forall i, j :: 0 <= i < j < |acc| ==> FirstIndex(items, acc[i].0) < FirstIndex(items, acc[j].0)
  }

  /** `items.reduce(...)` into `categoryCounts`, taken as the list of its
      entries in key-insertion order (the order `Object.entries` reports for
      non-numeric keys). */
  function CategoryCounts(items: seq<SavedItem>): (r: seq<Entry>)
    ensures DistinctKeys(r)
    ensures CountsAgree(items, r)
    ensures KeysOccur(items, r)
    ensures FirstSeenOrder(items, r)
    ensures SumCounts(r) == |items|
    decreases |items|
  {
    if |items| == 0 then []
    else
      var pre := items[..|items| - 1];
      var x := items[|items| - 1];
      assert items == pre + [x];
      var acc := CategoryCounts(pre);
      BumpKeys(acc, x.category);
      TallyCounts(pre, x, acc);
      TallyKeys(pre, x, acc);
      TallyOrder(pre, x, acc);
      Bump(acc, x.category)
  }

  lemma TallyCounts(pre: seq<SavedItem>, x: SavedItem, acc: seq<Entry>)
    requires DistinctKeys(acc) && CountsAgree(pre, acc) && KeysOccur(pre, acc)
    ensures CountsAgree(pre + [x], Bump(acc, x.category))
  {
    var r := Bump(acc, x.category);
    forall i | 0 <= i < |r|
      ensures r[i].1 == CountCategory(pre + [x], r[i].0) && r[i].1 > 0
    {
      CountCategorySnoc(pre, x, r[i].0);
      if i == |acc| {
        assert !HasKey(acc, x.category);
      }
    }
  }

  lemma TallyKeys(pre: seq<SavedItem>, x: SavedItem, acc: seq<Entry>)
    requires DistinctKeys(acc) && KeysOccur(pre, acc)
    ensures KeysOccur(pre + [x], Bump(acc, x.category))
  {
    BumpKeys(acc, x.category);
    forall c ensures HasKey(Bump(acc, x.category), c) <==> CountCategory(pre + [x], c) > 0 {
      CountCategorySnoc(pre, x, c);
    }
  }

  lemma TallyOrder(pre: seq<SavedItem>, x: SavedItem, acc: seq<Entry>)
    requires DistinctKeys(acc) && KeysOccur(pre, acc) && FirstSeenOrder(pre, acc)
    ensures FirstSeenOrder(pre + [x], Bump(acc, x.category))
  {
    var r := Bump(acc, x.category);
    // Keys already in the record occur in `pre`, so their first index is below |pre|.
    forall i | 0 <= i < |acc|
      ensures FirstIndex(pre, acc[i].0) < |pre|
      ensures FirstIndex(pre + [x], acc[i].0) == FirstIndex(pre, acc[i].0)
    {
      assert HasKey(acc, acc[i].0);
      CountCategoryPositive(pre, acc[i].0);
      FirstIndexSnoc(pre, x, acc[i].0);
    }
    if !HasKey(acc, x.category) {
      CountCategoryPositive(pre, x.category);
      FirstIndexSnoc(pre, x, x.category);
      assert FirstIndex(pre + [x], r[|acc|].0) == |pre|;
    }
  }

  // ---------------------------------------------------------------------------
  // Breakdown and top category

  function EntryCount(e: Entry): int {
    e.1
  }

  /** `Object.entries(categoryCounts).sort((a, b) => b[1] - a[1])`: the record's
      entries, most items first, ties in insertion order. */
  function Breakdown(items: seq<SavedItem>): (r: seq<Entry>)
    ensures NonIncreasing(r, EntryCount)
    ensures multiset(r) == multiset(CategoryCounts(items))
    ensures r == [] <==> |items| == 0
  {
    var tally := CategoryCounts(items);
    assert |tally| == 0 ==> SumCounts(tally) == 0;
    SortDesc(tally, EntryCount)
  }

  /** The first breakdown entry, `undefined` for an empty store. Its count is
      its bucket's size, and no bucket is larger. */
  function TopCategory(items: seq<SavedItem>): (r: Option<Entry>)
    ensures r.None? <==> |items| == 0
    ensures r.Some? ==> r.value.1 == CountCategory(items, r.value.0) && r.value.1 > 0
    ensures r.Some? ==> forall c :: CountCategory(items, c) <= r.value.1
  {
    var b := Breakdown(items);
    if |b| == 0 then None
    else
      BreakdownHeadIsTop(items);
      Some(b[0])
  }

  lemma BreakdownHeadIsTop(items: seq<SavedItem>)
    requires |items| > 0
    ensures Breakdown(items)[0].1 == CountCategory(items, Breakdown(items)[0].0)
    ensures Breakdown(items)[0].1 > 0
    ensures forall c :: CountCategory(items, c) <= Breakdown(items)[0].1
  {
    var tally := CategoryCounts(items);
    SortedHeadAgrees(items, tally);
    forall c ensures CountCategory(items, c) <= Breakdown(items)[0].1 {
      SortedHeadBeats(items, tally, c);
    }
  }

  lemma SortedHeadAgrees(items: seq<SavedItem>, tally: seq<Entry>)
    requires |tally| > 0 && CountsAgree(items, tally)
    ensures SortDesc(tally, EntryCount)[0].1 == CountCategory(items, SortDesc(tally, EntryCount)[0].0)
    ensures SortDesc(tally, EntryCount)[0].1 > 0
  {
    var b := SortDesc(tally, EntryCount);
    assert b[0] in multiset(tally);
    var i0 :| 0 <= i0 < |tally| && tally[i0] == b[0];
  }

  lemma SortedHeadBeats(items: seq<SavedItem>, tally: seq<Entry>, c: Category)
    requires |tally| > 0 && CountsAgree(items, tally) && KeysOccur(items, tally)
    ensures CountCategory(items, c) <= SortDesc(tally, EntryCount)[0].1
  {
    if CountCategory(items, c) > 0 {
      assert HasKey(tally, c);
      var i :| 0 <= i < |tally| && tally[i].0 == c;
      SortedHeadIsMax(tally, EntryCount, i);
    }
  }

  /** On a tie the top category is the one whose first item comes earliest in
      the store: the record keeps keys in first-seen order and the sort is
      stable. */
  lemma TopCategoryTieBreak(items: seq<SavedItem>, c: Category)
    requires TopCategory(items).Some?
    requires c != TopCategory(items).value.0
    requires CountCategory(items, c) == TopCategory(items).value.1
    ensures FirstIndex(items, TopCategory(items).value.0) < FirstIndex(items, c)
  {
    var tally := CategoryCounts(items);
    var t := TopCategory(items).value;
    assert t == SortDesc(tally, EntryCount)[0];
    assert KeysOccur(items, tally) && CountsAgree(items, tally);
    assert HasKey(tally, c);
    var jc :| 0 <= jc < |tally| && tally[jc].0 == c;
    SortedHeadIsEarliestTie(tally, jc);
    var m :| 0 <= m < jc && tally[m] == t;
    assert FirstSeenOrder(items, tally);
  }

  /** Among entries with the greatest count, the sorted head is the earliest. */
  lemma SortedHeadIsEarliestTie(tally: seq<Entry>, jc: int)
    requires 0 <= jc < |tally| && DistinctKeys(tally)
    requires tally[jc].1 == SortDesc(tally, EntryCount)[0].1
    requires tally[jc].0 != SortDesc(tally, EntryCount)[0].0
    ensures exists m :: 0 <= m < jc && tally[m] == SortDesc(tally, EntryCount)[0]
  {
    var b := SortDesc(tally, EntryCount);
    var k := b[0].1;
    WithKeyHead(tally, EntryCount, k, jc);
    var m :| 0 <= m <= jc && EntryCount(tally[m]) == k && WithKey(tally, EntryCount, k)[0] == tally[m];
    WithKeyHead(b, EntryCount, k, 0);
    SortStable(tally, EntryCount, k);
    assert b[0] == tally[m];
  }

  /** With an empty store there is no top category and no breakdown. */
  lemma EmptyStoreStats()
    ensures TopCategory([]) == None && Breakdown([]) == []
    ensures Platforms([]) == PlatformCounts(0, 0, 0)
  {
  }
}
