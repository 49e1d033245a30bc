/** The small display rules of a saved-item card (`SavedCard.tsx`): the likes
    label, the first three hashtags with a "+k more" label, and the caption's
    "Read more" toggle. */
module CardDisplay {
  import opened Wrappers
  import opened Text
  import opened Items
  import opened Highlighting

  const Thousand: nat := 1000
  const Million: nat := 1000000

  /** What `formatNumber` prints, up to the rounding `toFixed` applies to the
      quotient: `n / divisor` followed by the suffix, or the plain digits. */
  datatype NumberText = Scaled(divisor: nat, suffix: string) | Digits(digits: string)

  /** The "M" suffix from a million up, the "K" suffix from a thousand up, and
      below that the decimal digits of `n` itself. */
  function FormatNumber(n: nat): (r: NumberText)
    ensures (r.Scaled? && r.suffix == "M") <==> n >= Million
    ensures (r.Scaled? && r.suffix == "K") <==> Thousand <= n < Million
    ensures r.Scaled? ==> r.divisor == Million || r.divisor == Thousand
    ensures r.Scaled? ==> r.divisor <= n
    ensures r.Digits? <==> n < Thousand
    ensures r.Digits? ==> IsDigits(r.digits) && 1 <= |r.digits| <= 3 && ParseDecimal(r.digits) == n
  {
    if n >= Million then Scaled(Million, "M")
    else if n >= Thousand then Scaled(Thousand, "K")
    else
      DecimalRoundTrip(n);
      DecimalLength(n);
      Digits(DecimalString(n))
  }

  /** How many hashtags a card lists before summarising the rest. */
  const ShownHashtags: nat := 3

  /** The hashtags listed on the card, and the number summarised as "+k more"
      when there are any left over. */
  datatype HashtagRow = HashtagRow(shown: seq<string>, more: Option<nat>)

  /** `hashtags.slice(0, 3)` and the `length > 3` label: the first tags in
      their order, and a count that together with them accounts for every tag. */
  function HashtagView(tags: seq<string>): (r: HashtagRow)
    ensures |r.shown| <= ShownHashtags && r.shown <= tags
    ensures r.more.Some? <==> |tags| > ShownHashtags
    ensures r.more.None? ==> r.shown == tags
    ensures r.more.Some? ==> |r.shown| == ShownHashtags && |r.shown| + r.more.value == |tags|
    ensures r.more.Some? ==> r.shown + tags[ShownHashtags..] == tags
  {
    if |tags| > ShownHashtags then HashtagRow(tags[..ShownHashtags], Some(|tags| - ShownHashtags))
    else HashtagRow(tags, None)
  }

  /** The text of the overflow label, `+{k} more`: a plus sign, the decimal
      digits of `k`, and " more". */
  function MoreLabel(k: nat): (r: string)
    ensures |r| >= 7 && r[0] == '+' && r[|r| - 5..] == " more"
    ensures IsDigits(r[1..|r| - 5]) && ParseDecimal(r[1..|r| - 5]) == k
  {
    var digits := DecimalString(k);
    DecimalRoundTrip(k);
    var r := "+" + digits + " more";
    assert r[1..|r| - 5] == digits;
    r
  }

  /** Captions longer than this many characters get a "Read more" toggle. */
  const ReadMoreThreshold: nat := 100

  /** The data a card renders for `item` under the search text `query`. */
  datatype CardView = CardView(
    summary: seq<Segment>,
    caption: seq<Segment>,
    readMore: bool,
    hashtags: HashtagRow,
    likes: Option<NumberText>)

  /** Summary and caption are both highlighted with the search text as typed
      (not trimmed), the toggle appears only for long captions, and the likes
      label only when likes are present and non-zero. */
  function ViewCard(item: SavedItem, query: string): (v: CardView)
    ensures Joined(v.summary) == item.summary && Joined(v.caption) == item.caption
    ensures forall k :: 0 <= k < |v.summary| && v.summary[k].Marked? ==> IsMatch(v.summary[k].text, query)
    ensures forall k :: 0 <= k < |v.caption| && v.caption[k].Marked? ==> IsMatch(v.caption[k].text, query)
    ensures v.readMore <==> |item.caption| > ReadMoreThreshold
    ensures v.hashtags.shown <= item.hashtags
    ensures v.likes.Some? <==> item.likes.Some? && item.likes.value > 0
    ensures v.likes.Some? ==> v.likes == Some(FormatNumber(item.likes.value))
  {
    CardView(
      Highlight(item.summary, query),
      Highlight(item.caption, query),
      |item.caption| > ReadMoreThreshold,
      HashtagView(item.hashtags),
      if item.likes.Some? && item.likes.value > 0 then Some(FormatNumber(item.likes.value)) else None)
  }

  /** A whitespace-only search does not filter any item out, but the card
      still highlights it: a single space marks every space of the text. */
  lemma SpaceQueryStillHighlights()
    ensures Highlight("a b", " ") == [Plain("a"), Marked(" "), Plain("b")]
  {
    var text := "a b";
    SpaceSplit();
    SplitPartsSound(text, " ");
    var parts := ["a", " ", "b"];
    TagAlternating(parts, " ", 0);
    var r := Highlight(text, " ");
    assert r == Tag(parts, " ", 0);
    assert r[0] == Plain("a") && r[1] == Marked(" ") && r[2] == Plain("b");
  }

  lemma SpaceSplit()
    ensures SplitParts("a b", " ") == ["a", " ", "b"]
  {
    var text := "a b";
    assert Lower(text) == text && Lower(" ") == " ";
    assert FirstOccurrence(text, " ", 0) == Some(1) by {
      assert text[0..1][0] == 'a' && text[1..2] == " ";
    }
    assert text[2..] == "b" && Lower("b") == "b";
    assert FirstOccurrence("b", " ", 0) == None by {
      assert "b"[0..1][0] == 'b';
    }
    assert SplitParts("b", " ") == ["b"];
    assert text[..1] == "a" && text[1..2] == " ";
  }
}
