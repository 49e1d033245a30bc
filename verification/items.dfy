/** The records the dashboard displays, and the query a user builds over them. */
module Items {
  import opened Wrappers

  /** The closed set of buckets, in the order of the category chips. */
  datatype Category = Fitness | Coding | Food | Travel | Design | Finance | Motivation | Music {

    /** The category's name as it appears on the item, the chips and in search. */
    function Name(): string {
      match this
      case Fitness => "Fitness"
      case Coding => "Coding"
      case Food => "Food"
      case Travel => "Travel"
      case Design => "Design"
      case Finance => "Finance"
      case Motivation => "Motivation"
      case Music => "Music"
    }
  }

  datatype Platform = Instagram | Twitter | Blog {

    /** The platform's key as stored on the item and used by the platform chips. */
    function Name(): string {
      match this
      case Instagram => "instagram"
      case Twitter => "twitter"
      case Blog => "blog"
    }
  }

  /** One saved post. `likes` and `views` may be missing; `savedAt` is the
      instant the ISO timestamp denotes, already parsed. `url` and `thumbnail`
      are display-only and never inspected. */
  datatype SavedItem = SavedItem(
    id: string,
    category: Category,
    platform: Platform,
    url: string,
    thumbnail: string,
    summary: string,
    caption: string,
    author: string,
    hashtags: seq<string>,
    likes: Option<nat>,
    views: Option<nat>,
    savedAt: int)

  /** The category selection: the sentinel "All" or one category. */
  datatype CategoryChoice = AllCategories | OnlyCategory(category: Category)

  datatype SortMode = Newest | Popular

  /** The platform selection is free text; this sentinel means "no constraint". */
  const AllPlatforms: string := "All"

  /** Everything the visible list depends on: the search box, both selections
      and the sort toggle. */
  datatype Query = Query(search: string, category: CategoryChoice, platform: string, sort: SortMode)

  function InCategory(c: Category): SavedItem -> bool {
    (x: SavedItem) => x.category == c
  }

  function OnPlatform(p: Platform): SavedItem -> bool {
    (x: SavedItem) => x.platform == p
  }
}
