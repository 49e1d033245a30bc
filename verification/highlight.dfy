/** Search highlighting on a card (`highlight` in `SavedCard.tsx`): the text is
    split on the case-insensitive occurrences of the query, taken literally,
    and each part is marked or left plain. */
module Highlighting {
  import opened Wrappers
  import opened Text

  datatype Segment = Plain(text: string) | Marked(text: string)

  /** The text the segments spell out, in order. */
  function Joined(segs: seq<Segment>): string
    decreases |segs|
  {
    if |segs| == 0 then [] else segs[0].text + Joined(segs[1..])
  }

  function Concat(parts: seq<string>): string
    decreases |parts|
  {
    if |parts| == 0 then [] else parts[0] + Concat(parts[1..])
  }

  // ---------------------------------------------------------------------------
  // Escaping the query

  /** The characters the source escapes before building its pattern. */
  predicate IsRegExpSyntax(c: char) {
    c in ".*+?^${}()|[]\\"
  }

  /** `query.replace(/[.*+?^${}()|[\]\\]/g, "\\$&")`: a backslash in front of
      every syntax character. */
  function EscapeRegExp(q: string): (r: string)
    ensures |r| >= |q|
    decreases |q|
  {
    if |q| == 0 then []
    else (if IsRegExpSyntax(q[0]) then ['\\', q[0]] else [q[0]]) + EscapeRegExp(q[1..])
  }

  /** The literal string a pattern stands for, when it is made only of literal
      atoms: an escaped syntax character, or any character that is not syntax.
      `None` when the pattern holds an operator, a group or a class. */
  function LiteralOf(p: string): Option<string>
    decreases |p|
  {
    if |p| == 0 then Some([])
    else if p[0] == '\\' then
      if |p| >= 2 && IsRegExpSyntax(p[1]) then
        match LiteralOf(p[2..])
        case Some(rest) => Some([p[1]] + rest)
        case None => None
      else None
    else if IsRegExpSyntax(p[0]) then None
    else
      match LiteralOf(p[1..])
      case Some(rest) => Some([p[0]] + rest)
      case None => None
  }

  /** The escaped query is a pattern of literal atoms only, and it stands for
      exactly the query: no character of the query acts as an operator. */
  lemma {:induction false} EscapedQueryIsLiteral(q: string)
    ensures LiteralOf(EscapeRegExp(q)) == Some(q)
    decreases |q|
  {
    if |q| > 0 {
      EscapedQueryIsLiteral(q[1..]);
      var e := EscapeRegExp(q);
      if IsRegExpSyntax(q[0]) {
        assert e[0] == '\\' && e[1] == q[0] && e[2..] == EscapeRegExp(q[1..]);
      } else {
        assert e[0] == q[0] && e[1..] == EscapeRegExp(q[1..]);
        assert q[0] != '\\';
      }
      assert q == [q[0]] + q[1..];
    }
  }

  // ---------------------------------------------------------------------------
  // Case-insensitive occurrences

  /** The query occurs in `text` at index `i`, ignoring case. */
  predicate MatchAt(text: string, q: string, i: int) {
    OccursAt(Lower(text), Lower(q), i)
  }

  /** `text` holds no occurrence of the query. */
  ghost predicate NoMatch(text: string, q: string) {
    forall i :: !MatchAt(text, q, i)
  }

  /** `part` is the query, up to case. */
  predicate IsMatch(part: string, q: string) {
    Lower(part) == Lower(q)
  }

  /** The parts list shape `text.split(regex)` yields for a pattern with one
      capturing group: plain, match, plain, ..., plain. */
  ghost predicate Alternating(parts: seq<string>, q: string) {
    && |parts| % 2 == 1
    && (forall k :: 0 <= k < |parts| && k % 2 == 0 ==> NoMatch(parts[k], q))
    && (forall k :: 0 <= k < |parts| && k % 2 == 1 ==> IsMatch(parts[k], q))
  }

  lemma PrefixHasNoMatch(text: string, q: string, i: nat)
    requires |q| > 0 && i <= |text|
    requires forall j :: 0 <= j < i ==> !MatchAt(text, q, j)
    ensures NoMatch(text[..i], q)
  {
    LowerSlice(text, 0, i);
    forall j | MatchAt(text[..i], q, j)
      ensures false
    {
      assert Lower(text[..i])[j..j + |q|] == Lower(text)[j..j + |q|];
      assert MatchAt(text, q, j);
    }
  }

  lemma PartsStep(a: string, b: string, rest: seq<string>, q: string)
    requires NoMatch(a, q) && IsMatch(b, q) && Alternating(rest, q)
    ensures Alternating([a, b] + rest, q)
  {
    var parts := [a, b] + rest;
    forall k | 2 <= k < |parts|
      ensures parts[k] == rest[k - 2] && (k - 2) % 2 == k % 2
    {
    }
  }

  /** `text.split(regex)`: repeatedly the leftmost occurrence at or after the
      end of the previous one is cut out, together with the text before it. */
  function SplitParts(text: string, q: string): seq<string>
    requires |q| > 0
    decreases |text|
  {
    match FirstOccurrence(Lower(text), Lower(q), 0)
    case None => [text]
    case Some(i) => [text[..i], text[i..i + |q|]] + SplitParts(text[i + |q|..], q)
  }

  /** The split alternates plain parts free of the query with matched parts,
      and spells out the text it was cut from. */
  lemma {:induction false} SplitPartsSound(text: string, q: string)
    requires |q| > 0
    ensures Alternating(SplitParts(text, q), q)
    ensures Concat(SplitParts(text, q)) == text
    decreases |text|
  {
    match FirstOccurrence(Lower(text), Lower(q), 0)
    case None =>
      assert Concat([text]) == text + Concat([]);
    case Some(i) =>
      var rest := SplitParts(text[i + |q|..], q);
      SplitPartsSound(text[i + |q|..], q);
      SplitStep(text, q, i, rest);
  }

  /** Cutting out the leftmost occurrence at `i` in front of an alternating
      split of the remainder gives an alternating split of the whole text. */
  lemma SplitStep(text: string, q: string, i: nat, rest: seq<string>)
    requires |q| > 0 && i + |q| <= |text|
    requires MatchAt(text, q, i) && forall j :: 0 <= j < i ==> !MatchAt(text, q, j)
    requires Alternating(rest, q) && Concat(rest) == text[i + |q|..]
    ensures Alternating([text[..i], text[i..i + |q|]] + rest, q)
    ensures Concat([text[..i], text[i..i + |q|]] + rest) == text
  {
    LowerSlice(text, i, i + |q|);
    PrefixHasNoMatch(text, q, i);
    PartsStep(text[..i], text[i..i + |q|], rest, q);
    var parts := [text[..i], text[i..i + |q|]] + rest;
    assert parts[1..] == [text[i..i + |q|]] + rest;
    assert parts[1..][1..] == rest;
    assert text == text[..i] + text[i..i + |q|] + text[i + |q|..];
  }

  lemma MatchShift(text: string, q: string, m: nat, j: int)
    requires m <= |text| && j >= m
    ensures MatchAt(text, q, j) <==> MatchAt(text[m..], q, j - m)
  {
    LowerSlice(text, m, |text|);
    if j + |q| <= |text| {
      assert Lower(text[m..])[j - m..j - m + |q|] == Lower(text)[j..j + |q|];
    }
  }

  lemma {:induction false} ConcatPrefix(a: string, b: string, rest: seq<string>, k: nat)
    requires 2 <= k <= |rest| + 2
    ensures Concat(([a, b] + rest)[..k]) == a + b + Concat(rest[..k - 2])
  {
    var parts := ([a, b] + rest)[..k];
    assert parts[1..][1..] == rest[..k - 2];
  }

  /** No occurrence of the query in the text begins inside a plain part: each
      cut is the leftmost occurrence after the previous one, so the marked
      parts are exactly the occurrences a left-to-right scan finds. */
  lemma {:induction false} SplitLeftmost(text: string, q: string, k: nat, j: int)
    requires |q| > 0
    requires k < |SplitParts(text, q)| && k % 2 == 0
    requires |Concat(SplitParts(text, q)[..k])| <= j < |Concat(SplitParts(text, q)[..k])| + |SplitParts(text, q)[k]|
    ensures !MatchAt(text, q, j)
    decreases |text|
  {
    if k == 0 {
      SplitFirstPlain(text, q, j);
    } else {
      assert k >= 2 && (k - 2) % 2 == 0;
      var m := SplitLater(text, q, k, j);
      SplitLeftmost(text[m..], q, k - 2, j - m);
      MatchShift(text, q, m, j);
    }
  }

  /** Past the first cut, the plain part `k` of the text is plain part `k - 2`
      of the remainder behind the first occurrence, which ends at `m`. */
  lemma SplitLater(text: string, q: string, k: nat, j: int) returns (m: nat)
    requires |q| > 0
    requires 2 <= k < |SplitParts(text, q)|
    requires |Concat(SplitParts(text, q)[..k])| <= j < |Concat(SplitParts(text, q)[..k])| + |SplitParts(text, q)[k]|
    ensures 0 < m <= |text| && m <= j && k - 2 < |SplitParts(text[m..], q)|
    ensures |Concat(SplitParts(text[m..], q)[..k - 2])| <= j - m
    ensures j - m < |Concat(SplitParts(text[m..], q)[..k - 2])| + |SplitParts(text[m..], q)[k - 2]|
  {
    var parts := SplitParts(text, q);
    match FirstOccurrence(Lower(text), Lower(q), 0)
    case None =>
      assert false;
    case Some(i) =>
      m := i + |q|;
      var rest := SplitParts(text[m..], q);
      assert parts == [text[..i], text[i..m]] + rest;
      ConcatPrefix(text[..i], text[i..m], rest, k);
      assert parts[k] == rest[k - 2];
  }

  /** The first part is free of matches. */
  lemma SplitFirstPlain(text: string, q: string, j: int)
    requires |q| > 0
    requires |Concat(SplitParts(text, q)[..0])| <= j < |Concat(SplitParts(text, q)[..0])| + |SplitParts(text, q)[0]|
    ensures !MatchAt(text, q, j)
  {
    assert SplitParts(text, q)[..0] == [];
    assert Concat([]) == [];
    match FirstOccurrence(Lower(text), Lower(q), 0)
    case None =>
      assert !OccursAt(Lower(text), Lower(q), j);
    case Some(i) =>
      assert SplitParts(text, q)[0] == text[..i];
  }


  // ---------------------------------------------------------------------------
  // Marking the parts

  /** `regex.test(part)` on the source's global (`g`) pattern: the search starts
      at `lastIndex`; a hit moves `lastIndex` past it, a miss (or a `lastIndex`
      beyond the part) resets it to 0. */
  function RegexTest(part: string, q: string, lastIndex: nat): (bool, nat) {
    if lastIndex > |part| then (false, 0)
    else
      match FirstOccurrence(Lower(part), Lower(q), lastIndex)
      case None => (false, 0)
      case Some(i) => (true, i + |q|)
  }

  /** `parts.map(...)`: each part is marked when `regex.test` hits, the
      pattern's `lastIndex` carried from one part to the next. */
  function Tag(parts: seq<string>, q: string, lastIndex: nat): seq<Segment>
    decreases |parts|
  {
    if |parts| == 0 then []
    else
      var (hit, next) := RegexTest(parts[0], q, lastIndex);
      [if hit then Marked(parts[0]) else Plain(parts[0])] + Tag(parts[1..], q, next)
  }

  /** The `lastIndex` the global pattern carries does no harm here: on split
      parts every plain part misses (resetting it to 0) and every match then
      hits from 0, so parts are marked exactly at the odd positions. */
  lemma {:induction false} TagAlternating(parts: seq<string>, q: string, lastIndex: nat)
    requires |q| > 0 && Alternating(parts, q)
    ensures |Tag(parts, q, lastIndex)| == |parts|
    ensures forall k :: 0 <= k < |parts| ==>
      Tag(parts, q, lastIndex)[k] == if k % 2 == 0 then Plain(parts[k]) else Marked(parts[k])
    decreases |parts|
  {
    assert RegexTest(parts[0], q, lastIndex) == (false, 0) by {
      if lastIndex <= |parts[0]| {
        var found := FirstOccurrence(Lower(parts[0]), Lower(q), lastIndex);
        assert found.None? by {
          assert NoMatch(parts[0], q);
          if found.Some? {
            assert MatchAt(parts[0], q, found.value);
          }
        }
      }
    }
    if |parts| > 1 {
      var p1 := parts[1];
      assert IsMatch(p1, q);
      assert Lower(p1)[0..|q|] == Lower(q);
      assert RegexTest(p1, q, 0) == (true, |q|);
      var rest := parts[2..];
      assert Alternating(rest, q) by {
        forall k | 0 <= k < |rest|
          ensures rest[k] == parts[k + 2] && (k + 2) % 2 == k % 2
        {
        }
      }
      TagAlternating(rest, q, |q|);
      assert parts[1..][1..] == rest;
      var t := Tag(parts, q, lastIndex);
      assert t == [Plain(parts[0])] + Tag(parts[1..], q, 0);
      assert parts[1..][0] == p1;
      assert Tag(parts[1..], q, 0) == [Marked(p1)] + Tag(rest, q, |q|);
      assert t == [Plain(parts[0])] + ([Marked(p1)] + Tag(rest, q, |q|));
      forall k | 2 <= k < |parts|
        ensures t[k] == Tag(rest, q, |q|)[k - 2] && (k - 2) % 2 == k % 2
      {
      }
    }
  }

  lemma {:induction false} JoinedTexts(segs: seq<Segment>, parts: seq<string>)
    requires |segs| == |parts|
    requires forall k :: 0 <= k < |segs| ==> segs[k].text == parts[k]
    ensures Joined(segs) == Concat(parts)
    decreases |segs|
  {
    if |segs| > 0 {
      JoinedTexts(segs[1..], parts[1..]);
    }
  }

  // ---------------------------------------------------------------------------
  // The highlighter

  /** `highlight(text, query)`: an empty query leaves the text as one plain
      segment; otherwise plain and marked segments alternate, starting and
      ending with a (possibly empty) plain one, every marked segment is the
      query up to case, no plain segment holds an occurrence, and the segments
      spell out the text with its own casing. */
  function Highlight(text: string, q: string): (r: seq<Segment>)
    ensures |q| == 0 ==> r == [Plain(text)]
    ensures Joined(r) == text
    ensures |r| % 2 == 1
    ensures forall k :: 0 <= k < |r| ==> (r[k].Marked? <==> k % 2 == 1)
    ensures forall k :: 0 <= k < |r| && r[k].Marked? ==> IsMatch(r[k].text, q)
    ensures forall k :: 0 <= k < |r| && r[k].Plain? && |q| > 0 ==> NoMatch(r[k].text, q)
  {
    if |q| == 0 then
      assert Joined([Plain(text)]) == text + Joined([]);
      [Plain(text)]
    else
      var parts := SplitParts(text, q);
      SplitPartsSound(text, q);
      TagAlternating(parts, q, 0);
      var r := Tag(parts, q, 0);
      JoinedTexts(r, parts);
      r
  }

  /** The marked segments are exactly the occurrences a left-to-right scan
      finds: no case-insensitive occurrence of the query begins inside a plain
      segment, at whatever offset of the text that segment sits. */
  lemma HighlightLeftmost(text: string, q: string, k: int, j: int)
    requires |q| > 0
    requires 0 <= k < |Highlight(text, q)| && Highlight(text, q)[k].Plain?
    requires var before := |Joined(Highlight(text, q)[..k])|;
      before <= j < before + |Highlight(text, q)[k].text|
    ensures !MatchAt(text, q, j)
  {
    var parts := SplitParts(text, q);
    var r := Highlight(text, q);
    SplitPartsSound(text, q);
    TagAlternating(parts, q, 0);
    assert r == Tag(parts, q, 0);
    JoinedTexts(r[..k], parts[..k]);
    SplitLeftmost(text, q, k, j);
  }

  // ---------------------------------------------------------------------------
  // A worked example: the dot in "a.b" is a literal dot

  lemma ExampleLower()
    ensures Lower("a.b and axb") == "a.b and axb" && Lower("a.b") == "a.b" && Lower(" and axb") == " and axb"
  {
  }

  lemma ExampleFirstHit()
    ensures FirstOccurrence("a.b and axb", "a.b", 0) == Some(0)
  {
    assert "a.b and axb"[0..3] == "a.b";
  }

  lemma ExampleNoHitInRest()
    ensures FirstOccurrence(" and axb", "a.b", 0) == None
  {
    var rest := " and axb";
    forall i ensures !OccursAt(rest, "a.b", i) {
      if 0 <= i <= 5 {
        assert rest[i..i + 3][0] == rest[i] && rest[i..i + 3][1] == rest[i + 1];
      }
    }
  }

  lemma ExampleSplit()
    ensures SplitParts("a.b and axb", "a.b") == ["", "a.b", " and axb"]
  {
    ExampleLower();
    ExampleFirstHit();
    ExampleNoHitInRest();
    var text := "a.b and axb";
    assert text[..0] == "" && text[0..3] == "a.b" && text[3..] == " and axb";
    assert SplitParts(" and axb", "a.b") == [" and axb"];
  }

  /** Searching "a.b" marks the literal "a.b" and leaves "axb" plain. */
  lemma LiteralDotExample()
    ensures Highlight("a.b and axb", "a.b") == [Plain(""), Marked("a.b"), Plain(" and axb")]
  {
    ExampleSplit();
    SplitPartsSound("a.b and axb", "a.b");
    var parts := ["", "a.b", " and axb"];
    TagAlternating(parts, "a.b", 0);
    var r := Highlight("a.b and axb", "a.b");
    assert r == Tag(parts, "a.b", 0);
    assert r[0] == Plain("") && r[1] == Marked("a.b") && r[2] == Plain(" and axb");
  }
}
