/** The chip bar under the hero banner (`StatsBar.tsx`): one chip per category
    selection with its item count, one chip per platform selection, and which
    chip is shown as active. */
module StatsBar {
  import opened Wrappers
  import opened Text
  import opened Seqs
  import opened Items
  import opened QueryEngine

  /** The chips of the eight buckets, left to right. */
  const BucketChips: seq<CategoryChoice> := [
    OnlyCategory(Fitness), OnlyCategory(Coding), OnlyCategory(Food), OnlyCategory(Travel),
    OnlyCategory(Design), OnlyCategory(Finance), OnlyCategory(Motivation), OnlyCategory(Music)
  ]

  /** The category chips, left to right: "All", then one per bucket. */
  const CategoryChips: seq<CategoryChoice> := [AllCategories] + BucketChips

  /** The platform chips, left to right. */
  const PlatformChips: seq<string> := [AllPlatforms, "instagram", "twitter", "blog"]

  /** The count on a category chip: the whole store for "All", otherwise the
      items in that bucket. It is what the category filter alone keeps. */
  function CountByCategory(items: seq<SavedItem>, chip: CategoryChoice): (r: nat)
    ensures r == |ByCategory(items, chip)|
    ensures r <= |items|
  {
    if chip.AllCategories? then |items|
    else
      FilterCongruent(items, InCategory(chip.category), (x: SavedItem) => x.category == chip.category);
      |Filter(items, InCategory(chip.category))|
  }

  /** The badge on a chip is the number of cards the dashboard shows once that
      chip is picked, with an empty search and every platform. */
  lemma BadgeMatchesResult(items: seq<SavedItem>, chip: CategoryChoice, mode: SortMode)
    ensures CountByCategory(items, chip) == |Evaluate(items, Query("", chip, AllPlatforms, mode))|
  {
    var q := Query("", chip, AllPlatforms, mode);
    EvaluateLength(items, q);
    ChipOnlyAdmitted(items, chip, mode);
  }

  lemma EvaluateLength(items: seq<SavedItem>, q: Query)
    ensures |Evaluate(items, q)| == |Admitted(items, q)|
  {
    EvaluateCounts(items, q);
    assert |Evaluate(items, q)| == |multiset(Evaluate(items, q))|;
    assert |Admitted(items, q)| == |multiset(Admitted(items, q))|;
  }

  lemma ChipOnlyAdmitted(items: seq<SavedItem>, chip: CategoryChoice, mode: SortMode)
    ensures Admitted(items, Query("", chip, AllPlatforms, mode)) == ByCategory(items, chip)
  {
    var q := Query("", chip, AllPlatforms, mode);
    assert Trim("") == [] by {
      assert IsBlank("");
    }
    forall i | 0 <= i < |items| ensures QueryTest(q)(items[i]) == CategoryTest(chip)(items[i]) {
      assert SearchAdmits("", items[i]);
    }
    FilterCongruent(items, QueryTest(q), CategoryTest(chip));
    ByCategoryAsFilter(items, chip);
  }

  /** Sum of the badges of the chips in `chips`. */
  function BadgeSum(items: seq<SavedItem>, chips: seq<CategoryChoice>): nat
    decreases |chips|
  {
    if |chips| == 0 then 0 else CountByCategory(items, chips[0]) + BadgeSum(items, chips[1..])
  }

  /** One more item adds one to the "All" badge and to its own bucket's badge. */
  lemma CountByCategoryCons(x: SavedItem, rest: seq<SavedItem>, chip: CategoryChoice)
    ensures CountByCategory([x] + rest, chip) ==
      CountByCategory(rest, chip) + if chip == AllCategories || chip == OnlyCategory(x.category) then 1 else 0
  {
    assert ([x] + rest)[1..] == rest;
  }

  /** How many times `chip` occurs in `chips`. */
  function Occurrences(chips: seq<CategoryChoice>, chip: CategoryChoice): nat
    decreases |chips|
  {
    if |chips| == 0 then 0 else (if chips[0] == chip then 1 else 0) + Occurrences(chips[1..], chip)
  }

  lemma {:induction false} BadgeSumCons(x: SavedItem, rest: seq<SavedItem>, chips: seq<CategoryChoice>)
    ensures BadgeSum([x] + rest, chips) ==
      BadgeSum(rest, chips) + Occurrences(chips, OnlyCategory(x.category)) + Occurrences(chips, AllCategories)
    decreases |chips|
  {
    if |chips| > 0 {
      var h, t := chips[0], chips[1..];
      BadgeSumCons(x, rest, t);
      CountByCategoryCons(x, rest, h);
      assert BadgeSum([x] + rest, chips) == CountByCategory([x] + rest, h) + BadgeSum([x] + rest, t);
      assert BadgeSum(rest, chips) == CountByCategory(rest, h) + BadgeSum(rest, t);
    }
  }

  lemma {:induction false} BadgeSumEmpty(chips: seq<CategoryChoice>)
    ensures BadgeSum([], chips) == 0
    decreases |chips|
  {
    if |chips| > 0 {
      BadgeSumEmpty(chips[1..]);
    }
  }

  /** No chip appears twice in `chips`. */
  predicate DistinctChips(chips: seq<CategoryChoice>) {
    forall i, j :: 0 <= i < j < |chips| ==> chips[i] != chips[j]
  }

  /** In a list without repeats a chip occurs once if at all. */
  lemma {:induction false} DistinctCount(chips: seq<CategoryChoice>, x: CategoryChoice)
    requires DistinctChips(chips)
    ensures Occurrences(chips, x) == if x in chips then 1 else 0
    decreases |chips|
  {
    if |chips| > 0 {
      var t := chips[1..];
      assert DistinctChips(t) by {
        forall i, j | 0 <= i < j < |t| ensures t[i] != t[j] {
          assert t[i] == chips[i + 1] && t[j] == chips[j + 1];
        }
      }
      DistinctCount(t, x);
      if x == chips[0] {
        assert x !in t by {
          forall k | 0 <= k < |t| ensures t[k] != x {
            assert t[k] == chips[k + 1];
          }
        }
      } else {
        assert x in chips <==> x in t by {
          if x in chips {
            var k :| 0 <= k < |chips| && chips[k] == x;
            assert t[k - 1] == x;
          }
          if x in t {
            var k :| 0 <= k < |t| && t[k] == x;
            assert chips[k + 1] == x;
          }
        }
      }
    }
  }

  /** Each bucket has one chip after "All", and "All" is not among them. */
  lemma BucketChipsCover(c: Category)
    ensures DistinctChips(BucketChips)
    ensures OnlyCategory(c) in BucketChips && AllCategories !in BucketChips
  {
    match c
    case Fitness => assert BucketChips[0] == OnlyCategory(c);
    case Coding => assert BucketChips[1] == OnlyCategory(c);
    case Food => assert BucketChips[2] == OnlyCategory(c);
    case Travel => assert BucketChips[3] == OnlyCategory(c);
    case Design => assert BucketChips[4] == OnlyCategory(c);
    case Finance => assert BucketChips[5] == OnlyCategory(c);
    case Motivation => assert BucketChips[6] == OnlyCategory(c);
    case Music => assert BucketChips[7] == OnlyCategory(c);
  }

  /** Badges of chips that name every bucket once, and never "All", add up
      to the "All" badge: every item is in exactly one bucket. */
  lemma {:induction false} BadgesPartitionBy(items: seq<SavedItem>, chips: seq<CategoryChoice>)
    requires DistinctChips(chips)
    requires forall c :: OnlyCategory(c) in chips
    requires AllCategories !in chips
    ensures BadgeSum(items, chips) == CountByCategory(items, AllCategories)
    decreases |items|
  {
    if |items| == 0 {
      BadgeSumEmpty(chips);
    } else {
      var x, rest := items[0], items[1..];
      BadgesPartitionBy(rest, chips);
      assert items == [x] + rest;
      BadgeSumCons(x, rest, chips);
      DistinctCount(chips, OnlyCategory(x.category));
      DistinctCount(chips, AllCategories);
      assert BadgeSum(items, chips) == BadgeSum(rest, chips) + 1;
      assert CountByCategory(rest, AllCategories) == |rest|;
    }
  }

  /** The eight bucket badges add up to the "All" badge. */
  lemma BadgesPartition(items: seq<SavedItem>)
    ensures BadgeSum(items, BucketChips) == CountByCategory(items, AllCategories)
  {
    forall c ensures OnlyCategory(c) in BucketChips {
      BucketChipsCover(c);
    }
    BucketChipsCover(Fitness);
    BadgesPartitionBy(items, BucketChips);
  }

  /** The one category chip drawn as active: the chip equal to the selection. */
  function ActiveCategoryChip(sel: CategoryChoice): (i: nat)
    ensures i < |CategoryChips| && CategoryChips[i] == sel
    ensures forall j :: 0 <= j < |CategoryChips| && CategoryChips[j] == sel ==> j == i
  {
    match sel
    case AllCategories => 0
    case OnlyCategory(Fitness) => 1
    case OnlyCategory(Coding) => 2
    case OnlyCategory(Food) => 3
    case OnlyCategory(Travel) => 4
    case OnlyCategory(Design) => 5
    case OnlyCategory(Finance) => 6
    case OnlyCategory(Motivation) => 7
    case OnlyCategory(Music) => 8
  }

  /** The platform chip drawn as active, if any: the selection is free text, so
      a value that is no chip's leaves every chip inactive. */
  function ActivePlatformChip(sel: string): (r: Option<nat>)
    ensures r.None? <==> sel !in PlatformChips
    ensures r.Some? ==> r.value < |PlatformChips| && PlatformChips[r.value] == sel
    ensures r.Some? ==> forall j :: 0 <= j < |PlatformChips| && PlatformChips[j] == sel ==> j == r.value
  {
    if sel == AllPlatforms then Some(0)
    else if sel == "instagram" then Some(1)
    else if sel == "twitter" then Some(2)
    else if sel == "blog" then Some(3)
    else None
  }

  /** Every platform chip except "All" names a real platform, and picking it
      keeps exactly that platform's items. */
  lemma PlatformChipsNamePlatforms(p: Platform)
    ensures p.Name() in PlatformChips[1..]
    ensures forall x: SavedItem :: PlatformAdmits(p.Name(), x) <==> x.platform == p
  {
    forall x: SavedItem ensures PlatformAdmits(p.Name(), x) <==> x.platform == p {
      assert x.platform.Name() == p.Name() ==> x.platform == p;
    }
  }
}
