/** The visible list of the dashboard (the `filteredItems` memo of `App.tsx`):
    an exact category filter, an exact platform filter, a case-insensitive
    substring search, then a stable sort, each stage working on a copy. */
module QueryEngine {
  import opened Wrappers
  import opened Text
  import opened Seqs
  import opened StableSort
  import opened Items

  // ---------------------------------------------------------------------------
  // What each stage admits

  predicate CategoryAdmits(sel: CategoryChoice, x: SavedItem) {
    sel.AllCategories? || x.category == sel.category
  }

  predicate PlatformAdmits(sel: string, x: SavedItem) {
    sel == AllPlatforms || x.platform.Name() == sel
  }

  /** `q` (already lower-cased) occurs in the lower-cased summary, caption,
      category, author, some hashtag, or platform of `x`. */
  predicate MatchesSearch(x: SavedItem, q: string) {
    || Includes(Lower(x.summary), q)
    || Includes(Lower(x.caption), q)
    || Includes(Lower(x.category.Name()), q)
    || Includes(Lower(x.author), q)
    || (exists h :: h in x.hashtags && Includes(Lower(h), q))
    || Includes(Lower(x.platform.Name()), q)
  }

  /** The search is switched on by the trimmed text, but it is the untrimmed,
      lower-cased text that has to occur. */
  predicate SearchAdmits(search: string, x: SavedItem) {
    Trim(search) == [] || MatchesSearch(x, Lower(search))
  }

  predicate Admits(q: Query, x: SavedItem) {
    CategoryAdmits(q.category, x) && PlatformAdmits(q.platform, x) && SearchAdmits(q.search, x)
  }

  function CategoryTest(sel: CategoryChoice): SavedItem -> bool {
    x => CategoryAdmits(sel, x)
  }

  function PlatformTest(sel: string): SavedItem -> bool {
    x => PlatformAdmits(sel, x)
  }

  function SearchTest(search: string): SavedItem -> bool {
    x => SearchAdmits(search, x)
  }

  function QueryTest(q: Query): SavedItem -> bool {
    x => Admits(q, x)
  }

  // ---------------------------------------------------------------------------
  // The stages, as the source runs them

  function ByCategory(items: seq<SavedItem>, sel: CategoryChoice): (r: seq<SavedItem>)
    ensures multiset(r) <= multiset(items)
    ensures sel.AllCategories? ==> r == items
    ensures forall x :: x in r <==> x in items && CategoryAdmits(sel, x)
  {
    if sel.AllCategories? then items
    else Filter(items, (x: SavedItem) => x.category == sel.category)
  }

  function ByPlatform(items: seq<SavedItem>, sel: string): (r: seq<SavedItem>)
    ensures multiset(r) <= multiset(items)
    ensures sel == AllPlatforms ==> r == items
    ensures forall x :: x in r <==> x in items && PlatformAdmits(sel, x)
  {
    if sel != AllPlatforms then Filter(items, (x: SavedItem) => x.platform.Name() == sel)
    else items
  }

  function BySearch(items: seq<SavedItem>, search: string): (r: seq<SavedItem>)
    ensures multiset(r) <= multiset(items)
    ensures IsBlank(search) ==> r == items
    ensures !IsBlank(search) ==> forall x :: x in r <==> x in items && MatchesSearch(x, Lower(search))
  {
    if Trim(search) != [] then
      var q := Lower(search);
      Filter(items, (x: SavedItem) => MatchesSearch(x, q))
    else items
  }

  function LikesOrZero(x: SavedItem): int {
    x.likes.GetOr(0)
  }

  function SavedAtKey(x: SavedItem): int {
    x.savedAt
  }

  /** The key the sort toggle orders by, descending. */
  function SortKey(mode: SortMode): SavedItem -> int {
    match mode
    case Popular => LikesOrZero
    case Newest => SavedAtKey
  }

  /** The visible list for query `q` over the store. */
  function Evaluate(store: seq<SavedItem>, q: Query): (r: seq<SavedItem>)
    ensures multiset(r) <= multiset(store)
    ensures |r| <= |store|
    ensures forall x :: x in r <==> x in store && Admits(q, x)
    ensures NonIncreasing(r, SortKey(q.sort))
  {
    var afterCategory := ByCategory(store, q.category);
    var afterPlatform := ByPlatform(afterCategory, q.platform);
    var afterSearch := BySearch(afterPlatform, q.search);
    var r := SortDesc(afterSearch, SortKey(q.sort));
    assert multiset(r) <= multiset(store) by {
      assert multiset(afterSearch) <= multiset(afterPlatform) <= multiset(afterCategory) <= multiset(store);
    }
    assert |r| <= |store| by {
      assert |r| == |multiset(r)| && |store| == |multiset(store)|;
    }
    assert forall x :: x in afterSearch <==> x in store && Admits(q, x) by {
      forall x ensures x in afterSearch <==> x in store && Admits(q, x) {
        assert x in afterCategory <==> x in store && CategoryAdmits(q.category, x);
        assert x in afterPlatform <==> x in afterCategory && PlatformAdmits(q.platform, x);
        assert x in afterSearch <==> x in afterPlatform && SearchAdmits(q.search, x);
      }
    }
    assert forall x :: x in r <==> x in afterSearch by {
      forall x ensures x in r <==> x in afterSearch {
        assert x in r <==> x in multiset(r);
      }
    }
    r
  }

  // ---------------------------------------------------------------------------
  // The pipeline against a one-pass reference

  /** The store's items the query admits, in store order. */
  function Admitted(store: seq<SavedItem>, q: Query): seq<SavedItem> {
    Filter(store, QueryTest(q))
  }

  lemma ByCategoryAsFilter(items: seq<SavedItem>, sel: CategoryChoice)
    ensures ByCategory(items, sel) == Filter(items, CategoryTest(sel))
  {
    if sel.AllCategories? {
      FilterKeepsAll(items, CategoryTest(sel));
    } else {
      FilterCongruent(items, (x: SavedItem) => x.category == sel.category, CategoryTest(sel));
    }
  }

  lemma ByPlatformAsFilter(items: seq<SavedItem>, sel: string)
    ensures ByPlatform(items, sel) == Filter(items, PlatformTest(sel))
  {
    if sel == AllPlatforms {
      FilterKeepsAll(items, PlatformTest(sel));
    } else {
      FilterCongruent(items, (x: SavedItem) => x.platform.Name() == sel, PlatformTest(sel));
    }
  }

  lemma BySearchAsFilter(items: seq<SavedItem>, search: string)
    ensures BySearch(items, search) == Filter(items, SearchTest(search))
  {
    if Trim(search) == [] {
      FilterKeepsAll(items, SearchTest(search));
    } else {
      var q := Lower(search);
      FilterCongruent(items, (x: SavedItem) => MatchesSearch(x, q), SearchTest(search));
    }
  }

  /** Running the three filters in turn and sorting is the same as sorting the
      admitted items: the pipeline is the sort of the one-pass selection. */
  lemma EvaluateIsSortedAdmitted(store: seq<SavedItem>, q: Query)
    ensures Evaluate(store, q) == SortDesc(Admitted(store, q), SortKey(q.sort))
  {
    var c := ByCategory(store, q.category);
    var p := ByPlatform(c, q.platform);
    ByCategoryAsFilter(store, q.category);
    ByPlatformAsFilter(c, q.platform);
    BySearchAsFilter(p, q.search);
    var cp := (x: SavedItem) => CategoryAdmits(q.category, x) && PlatformAdmits(q.platform, x);
    FilterFuse(store, CategoryTest(q.category), PlatformTest(q.platform), cp);
    FilterFuse(store, cp, SearchTest(q.search), QueryTest(q));
  }

  /** Every admitted item keeps all its copies in the result, and nothing else
      is there: the result is a permutation of the admitted items. */
  lemma EvaluateCounts(store: seq<SavedItem>, q: Query)
    ensures multiset(Evaluate(store, q)) == multiset(Admitted(store, q))
    ensures forall x :: multiset(Evaluate(store, q))[x] == if Admits(q, x) then multiset(store)[x] else 0
  {
    EvaluateIsSortedAdmitted(store, q);
    FilterCount(store, QueryTest(q));
  }

  /** Items with equal sort keys (equal likes-or-0 under Popular, equal
      timestamps under Newest) keep their store order. */
  lemma EvaluateStable(store: seq<SavedItem>, q: Query, k: int)
    ensures WithKey(Evaluate(store, q), SortKey(q.sort), k) == WithKey(Admitted(store, q), SortKey(q.sort), k)
  {
    EvaluateIsSortedAdmitted(store, q);
    SortStable(Admitted(store, q), SortKey(q.sort), k);
  }

  /** With both selections on "All" and a whitespace-only search, every item of
      the store is shown: the result is a permutation of the whole store. */
  lemma UnconstrainedIsPermutation(store: seq<SavedItem>, search: string, mode: SortMode)
    requires IsBlank(search)
    ensures multiset(Evaluate(store, Query(search, AllCategories, AllPlatforms, mode))) == multiset(store)
  {
    var q := Query(search, AllCategories, AllPlatforms, mode);
    EvaluateIsSortedAdmitted(store, q);
    FilterKeepsAll(store, QueryTest(q));
  }

  /** A yoga post whose only searchable occurrence of "yoga" is its summary. */
  function YogaPost(): SavedItem {
    SavedItem("1", Fitness, Blog, "", "", "yoga", "", "", [], None, None, 0)
  }

  /** The quirk of the search box: a query with a leading space passes the
      `trim` gate, yet it is the text with the space that must occur, so the
      post that the trimmed word finds is not found. */
  lemma UntrimmedSearchQuirk()
    ensures Trim(" yoga") == "yoga"
    ensures MatchesSearch(YogaPost(), Lower(Trim(" yoga")))
    ensures !SearchAdmits(" yoga", YogaPost())
  {
    TrimLeadingSpace();
    LowerExamples();
    YogaPostMatchesWord();
    YogaPostMissesSpacedWord();
  }

  lemma YogaPostMatchesWord()
    ensures MatchesSearch(YogaPost(), "yoga")
  {
    LowerExamples();
    assert OccursAt("yoga", "yoga", 0);
  }

  lemma YogaPostMissesSpacedWord()
    ensures !MatchesSearch(YogaPost(), " yoga")
  {
    LowerExamples();
    forall i ensures !OccursAt("fitness", " yoga", i) {
      if 0 <= i <= 2 {
        assert "fitness"[i..i + 5][0] == "fitness"[i] != ' ';
      }
    }
    assert FirstOccurrence("yoga", " yoga", 0) == None;
    assert FirstOccurrence("", " yoga", 0) == None;
    assert FirstOccurrence("blog", " yoga", 0) == None;
  }

  lemma TrimLeadingSpace()
    ensures Trim(" yoga") == "yoga"
  {
    var s := " yoga";
    assert s[0] == ' ' && s[1] == 'y' && s[4] == 'a';
    assert LeadingEnd(s[1..]) == 0;
    assert LeadingEnd(s) == 1;
    assert TrailingStart(s) == 5;
    assert s[1..5] == "yoga";
  }

  lemma LowerExamples()
    ensures Lower(" yoga") == " yoga" && Lower("yoga") == "yoga" && Lower("") == ""
    ensures Lower("Fitness") == "fitness" && Lower("blog") == "blog"
  {
  }
}
