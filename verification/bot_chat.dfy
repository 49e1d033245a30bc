/** The WhatsApp bot demo opened from the header (`Header.tsx`): sending a
    message, the canned reply chosen from the message text, and the labels of
    the quick-demo link buttons. */
module BotChat {
  import opened Wrappers
  import opened Text

  datatype Sender = User | Bot

  datatype Message = Message(from: Sender, text: string, time: string)

  /** The modal's state. `pending` holds, oldest first, the texts whose reply
      timer has not fired yet; every timer has the same delay, so they fire in
      the order they were set. */
  datatype Chat = Chat(messages: seq<Message>, input: string, typing: bool, pending: seq<string>)

  const Greeting: string :=
    "👋 Hi! I'm your *Social Saver Bot*! Send me any Instagram, Twitter or Blog link and I'll save it to your knowledge base."

  /** The modal as it opens: the user's "Hey!" and the bot's greeting. */
  const Opened: Chat := Chat([Message(User, "Hey!", "10:00 AM"), Message(Bot, Greeting, "10:00 AM")], "", false, [])

  // ---------------------------------------------------------------------------
  // Choosing the reply

  datatype ReplyKind = InstagramSaved | TwitterSaved | BlogSaved | HelpText | NotALink

  /** Whether the text carries the marker of reply `k`. The link markers are
      matched case-sensitively; only "help" is looked for in the lower-cased text. */
  predicate Triggers(k: ReplyKind, text: string) {
    match k
    case InstagramSaved => Includes(text, "instagram.com")
    case TwitterSaved => Includes(text, "twitter.com")
    case BlogSaved => Includes(text, "medium.com") || Includes(text, "blog")
    case HelpText => Includes(Lower(text), "help")
    case NotALink => false
  }

  /** Position in the `if ... else if` chain: a lower rank comes earlier. */
  function Rank(k: ReplyKind): nat {
    match k
    case InstagramSaved => 0
    case TwitterSaved => 1
    case BlogSaved => 2
    case HelpText => 3
    case NotALink => 4
  }

  /** The reply chosen for `text`: the first-ranked reply whose marker the text
      carries, and the "not a link" reply when it carries none. */
  function Classify(text: string): (k: ReplyKind)
    ensures k == NotALink <==> forall k' :: !Triggers(k', text)
    ensures k != NotALink ==> Triggers(k, text)
    ensures forall k' :: Triggers(k', text) ==> Rank(k) <= Rank(k')
  {
    if Includes(text, "instagram.com") then
      assert Triggers(InstagramSaved, text);
      InstagramSaved
    else if Includes(text, "twitter.com") then
      assert Triggers(TwitterSaved, text);
      TwitterSaved
    else if Includes(text, "medium.com") || Includes(text, "blog") then
      assert Triggers(BlogSaved, text);
      BlogSaved
    else if Includes(Lower(text), "help") then
      assert Triggers(HelpText, text);
      HelpText
    else NotALink
  }

  const InstagramReply: string :=
    "✅ Got it! Saved to your *'Fitness'* bucket 🏋️\n\n📝 *Summary:* Morning stretch routine for better posture.\n🏷️ Tags: #fitness #morningstretch\n\nView it on your dashboard → socialsaver.app/dashboard"

  const TwitterReply: string :=
    "✅ Got it! Saved to your *'Coding'* bucket 💻\n\n📝 *Summary:* 7 essential JavaScript array methods.\n🏷️ Tags: #javascript #coding\n\nView it → socialsaver.app/dashboard"

  const BlogReply: string :=
    "✅ Got it! Saved to your *'Fitness'* bucket 🏋️\n\n📝 *Summary:* Guide to building a productive morning routine.\n🏷️ Tags: #productivity #fitness\n\nView it → socialsaver.app/dashboard"

  const HelpReply: string :=
    "🤖 *Social Saver Bot Help*\n\nJust send me a link!\n\n📸 Instagram Reels/Posts\n🐦 Twitter/X Threads\n📰 Blog Articles\n\nI'll auto-categorize & summarize using AI 🧠"

  const NotALinkReply: string :=
    "🤔 That doesn't look like a link. Try sending an Instagram, Twitter, or Blog URL!\n\nType *help* for more info."

  function ReplyText(k: ReplyKind): string {
    match k
    case InstagramSaved => InstagramReply
    case TwitterSaved => TwitterReply
    case BlogSaved => BlogReply
    case HelpText => HelpReply
    case NotALink => NotALinkReply
  }

  // ---------------------------------------------------------------------------
  // Sending and replying

  /** Typing into the input box. */
  function EditInput(chat: Chat, s: string): (r: Chat)
    ensures r.input == s
    ensures r.messages == chat.messages && r.typing == chat.typing && r.pending == chat.pending
  {
    chat.(input := s)
  }

  /** `sendMessage(text)`: a whitespace-only text changes nothing (not even the
      input box); any other text is appended verbatim as the user's message,
      clears the input, shows the typing indicator and sets a reply timer. */
  function SendMessage(chat: Chat, text: string): (r: Chat)
    ensures IsBlank(text) ==> r == chat
    ensures !IsBlank(text) ==>
      && r.messages == chat.messages + [Message(User, text, "now")]
      && r.input == ""
      && r.typing
      && r.pending == chat.pending + [text]
    ensures Balanced(chat) ==> Balanced(r)
  {
    if Trim(text) == [] then chat
    else
      var m := Message(User, text, "now");
      CountFromSnoc(chat.messages, m, Bot);
      CountFromSnoc(chat.messages, m, User);
      Chat(chat.messages + [m], "", true, chat.pending + [text])
  }

  /** The oldest reply timer fires: the typing indicator is hidden and the
      reply chosen from that message's text is appended. With no timer set,
      nothing happens. */
  function DeliverReply(chat: Chat): (r: Chat)
    ensures chat.pending == [] ==> r == chat
    ensures chat.pending != [] ==>
      && r.messages == chat.messages + [Message(Bot, ReplyText(Classify(chat.pending[0])), "now")]
      && !r.typing
      && r.pending == chat.pending[1..]
      && r.input == chat.input
    ensures Balanced(chat) ==> Balanced(r)
  {
    if chat.pending == [] then chat
    else
      var m := Message(Bot, ReplyText(Classify(chat.pending[0])), "now");
      CountFromSnoc(chat.messages, m, Bot);
      CountFromSnoc(chat.messages, m, User);
      Chat(chat.messages + [m], chat.input, false, chat.pending[1..])
  }

  /** A message, then its reply: the log grows by exactly the user's text and
      the bot's answer to it, in that order, and nothing earlier changes. */
  lemma Exchange(chat: Chat, text: string)
    requires chat.pending == [] && !IsBlank(text)
    ensures var r := DeliverReply(SendMessage(chat, text));
      && |r.messages| == |chat.messages| + 2
      && r.messages[..|chat.messages|] == chat.messages
      && r.messages[|chat.messages|] == Message(User, text, "now")
      && r.messages[|chat.messages| + 1] == Message(Bot, ReplyText(Classify(text)), "now")
      && r.input == "" && !r.typing && r.pending == []
  {
    var s := SendMessage(chat, text);
    var r := DeliverReply(s);
    var ms := chat.messages;
    var u, b := Message(User, text, "now"), Message(Bot, ReplyText(Classify(text)), "now");
    SentOne(chat, text);
    RepliedOne(s, text);
    AppendTwo(ms, u, b);
  }

  lemma SentOne(chat: Chat, text: string)
    requires chat.pending == [] && !IsBlank(text)
    ensures SendMessage(chat, text).pending == [text]
    ensures SendMessage(chat, text).messages == chat.messages + [Message(User, text, "now")]
    ensures SendMessage(chat, text).input == ""
  {
  }

  lemma RepliedOne(chat: Chat, text: string)
    requires chat.pending == [text]
    ensures DeliverReply(chat).messages == chat.messages + [Message(Bot, ReplyText(Classify(text)), "now")]
    ensures DeliverReply(chat).pending == [] && !DeliverReply(chat).typing
    ensures DeliverReply(chat).input == chat.input
  {
  }

  lemma RepliedFirst(chat: Chat)
    requires |chat.pending| == 2
    ensures DeliverReply(chat).pending == [chat.pending[1]] && !DeliverReply(chat).typing
  {
  }

  lemma AppendTwo(ms: seq<Message>, u: Message, b: Message)
    ensures var r := ms + [u] + [b];
      |r| == |ms| + 2 && r[..|ms|] == ms && r[|ms|] == u && r[|ms| + 1] == b
  {
  }

  /** Two messages sent before the first reply: that reply hides the typing
      indicator although the second reply is still on its way. */
  lemma TypingClearedEarly(chat: Chat, a: string, b: string)
    requires chat.pending == [] && !IsBlank(a) && !IsBlank(b)
    ensures var r := DeliverReply(SendMessage(SendMessage(chat, a), b));
      !r.typing && r.pending == [b]
  {
    var s1 := SendMessage(chat, a);
    assert s1.pending == [a];
    var s2 := SendMessage(s1, b);
    assert s2.pending == [a, b];
    RepliedFirst(s2);
  }

  // ---------------------------------------------------------------------------
  // Every message gets exactly one reply

  function CountFrom(msgs: seq<Message>, who: Sender): nat
    decreases |msgs|
  {
    if |msgs| == 0 then 0
    else CountFrom(msgs[..|msgs| - 1], who) + if msgs[|msgs| - 1].from == who then 1 else 0
  }

  /** The bot's messages plus the replies still pending match the user's
      messages one for one. */
  predicate Balanced(chat: Chat) {
    CountFrom(chat.messages, Bot) + |chat.pending| == CountFrom(chat.messages, User)
  }

  lemma CountFromSnoc(msgs: seq<Message>, m: Message, who: Sender)
    ensures CountFrom(msgs + [m], who) == CountFrom(msgs, who) + if m.from == who then 1 else 0
  {
    assert (msgs + [m])[..|msgs|] == msgs;
  }

  lemma OpenedBalanced()
    ensures Balanced(Opened)
  {
    var u, b := Opened.messages[0], Opened.messages[1];
    assert Opened.messages == [] + [u] + [b];
    CountFromSnoc([], u, User);
    CountFromSnoc([], u, Bot);
    CountFromSnoc([u], b, User);
    CountFromSnoc([u], b, Bot);
  }

  // ---------------------------------------------------------------------------
  // Opening and closing the modal

  /** The header's bot demo. The modal is mounted only while `botDemo` is set,
      so closing it throws away its conversation, its input and its pending
      replies. Mounts are numbered: `mount` is the number of the open modal,
      or of the last one when the demo is closed. A reply timer belongs to the
      mount that set it, and once that modal is gone its callbacks update
      nothing, even if a newer modal is open by then. */
  datatype Demo = Closed(mount: nat) | Open(mount: nat, chat: Chat)

  /** Every open modal keeps its log balanced. */
  predicate DemoValid(d: Demo) {
    d.Open? ==> Balanced(d.chat)
  }

  /** The header's "WhatsApp Bot" button: a closed demo mounts a fresh modal,
      newer than every earlier one, showing the opening messages; an open one
      is left as it is. */
  function OpenDemo(d: Demo): (r: Demo)
    ensures r.Open?
    ensures d.Closed? ==> r.chat == Opened && r.mount > d.mount
    ensures d.Open? ==> r == d
    ensures DemoValid(d) ==> DemoValid(r)
  {
    OpenedBalanced();
    if d.Closed? then Open(d.mount + 1, Opened) else d
  }

  /** The modal's close button unmounts it: nothing of its state survives, and
      the next modal will carry a newer number. */
  function CloseDemo(d: Demo): (r: Demo)
    ensures r.Closed? && r.mount == d.mount && DemoValid(r)
  {
    Closed(d.mount)
  }

  /** `sendMessage` in the open modal; with no modal there is nothing to type into. */
  function SendInDemo(d: Demo, text: string): (r: Demo)
    ensures d.Closed? ==> r == d
    ensures d.Open? ==> r == Open(d.mount, SendMessage(d.chat, text))
    ensures DemoValid(d) ==> DemoValid(r)
  {
    match d
    case Closed(_) => d
    case Open(m, chat) => Open(m, SendMessage(chat, text))
  }

  /** A reply timer set by mount `m` fires. In the modal that set it, the
      oldest pending reply is delivered; a timer of any other mount, whose
      modal has been unmounted, changes nothing. */
  function FireReply(d: Demo, m: nat): (r: Demo)
    ensures d.Open? && d.mount == m ==> r == Open(m, DeliverReply(d.chat))
    ensures !(d.Open? && d.mount == m) ==> r == d
    ensures DemoValid(d) ==> DemoValid(r)
  {
    if d.Open? && d.mount == m then Open(m, DeliverReply(d.chat)) else d
  }

  /** A message sent, the modal closed and reopened, and another message sent:
      the fresh modal holds the opening messages and only the new text, the
      old modal's timer adds nothing to it and leaves its typing indicator on,
      and only the new modal's own timer answers the new text. */
  lemma ClosingDiscardsChat(m: nat, chat: Chat, a: string, b: string)
    requires !IsBlank(a) && !IsBlank(b)
    ensures var first := SendInDemo(Open(m, chat), a);
      var second := SendInDemo(OpenDemo(CloseDemo(first)), b);
      && first.chat.pending != []
      && second.mount != m
      && second.chat.messages == Opened.messages + [Message(User, b, "now")]
      && second.chat.pending == [b]
      && FireReply(second, m) == second && second.chat.typing
      && FireReply(second, second.mount).chat.messages
           == second.chat.messages + [Message(Bot, ReplyText(Classify(b)), "now")]
  {
    var first := SendInDemo(Open(m, chat), a);
    assert first.chat.pending == chat.pending + [a];
    var reopened := OpenDemo(CloseDemo(first));
    assert reopened == Open(m + 1, Opened);
    FreshModalSend(m + 1, b);
  }

  /** The first message sent in a fresh modal, and the reply timers that can
      then fire. */
  lemma FreshModalSend(k: nat, b: string)
    requires !IsBlank(b)
    ensures var second := SendInDemo(Open(k, Opened), b);
      && second.mount == k
      && second.chat.messages == Opened.messages + [Message(User, b, "now")]
      && second.chat.pending == [b] && second.chat.typing
      && (forall m :: m != k ==> FireReply(second, m) == second)
      && FireReply(second, k).chat.messages
           == second.chat.messages + [Message(Bot, ReplyText(Classify(b)), "now")]
  {
    var second := SendInDemo(Open(k, Opened), b);
    assert second.chat == SendMessage(Opened, b);
    SentOne(Opened, b);
    RepliedOne(second.chat, b);
  }

  // ---------------------------------------------------------------------------
  // The quick-demo buttons

  const DemoLinks: seq<string> := [
    "https://www.instagram.com/reel/abc123",
    "https://twitter.com/i/status/xyz789",
    "https://medium.com/fitness/morning-routine"
  ]

  /** `link.replace("https://", "")`: the button's caption. A link that
      starts with the scheme loses exactly that prefix. */
  function DemoLabel(link: string): (r: string)
    ensures |r| <= |link|
    ensures |link| >= 8 && link[..8] == "https://" ==> r == link[8..]
  {
    assert |link| >= 8 && link[..8] == "https://" ==> FirstOccurrence(link, "https://", 0) == Some(0) by {
      if |link| >= 8 && link[..8] == "https://" {
        assert OccursAt(link, "https://", 0);
      }
    }
    ReplaceFirst(link, "https://", "")
  }

  /** Only the first occurrence is removed. */
  lemma DemoLabelKeepsLaterScheme()
    ensures DemoLabel("https://a/https://b") == "a/https://b"
  {
    var link := "https://a/https://b";
    assert link[..8] == "https://";
  }

  /** A link built as scheme, host and path. The proofs about the demo links
      below work on these three parts rather than on the whole literals: the
      verifier then reasons about a few short strings instead of unfolding
      every character of a forty-character link. */
  function Link(host: string, path: string): string {
    "https://" + host + path
  }

  lemma LinkLabel(host: string, path: string)
    ensures DemoLabel(Link(host, path)) == Link(host, path)[8..] == host + path
  {
    var link := Link(host, path);
    assert link[..8] == "https://" && link[8..] == host + path;
  }

  /** The demo links, split into scheme, host and path. */
  lemma DemoLinkParts(i: int, link: string)
    requires 0 <= i < |DemoLinks| && link == DemoLinks[i]
    ensures i == 0 ==> link == Link("www." + "instagram.com", "/reel/abc123")
    ensures i == 1 ==> link == Link("twitter.com", "/i/status/xyz789")
    ensures i == 2 ==> link == Link("medium.com", "/fitness/morning-routine")
  {
    if i == 0 {
      InstagramParts(link);
    } else if i == 1 {
      TwitterParts(link);
    } else {
      MediumParts(link);
    }
  }

  lemma InstagramParts(link: string)
    requires link == "https://www.instagram.com/reel/abc123"
    ensures link == "https://" + ("www." + "instagram.com") + "/reel/abc123"
  {
  }

  lemma TwitterParts(link: string)
    requires link == "https://twitter.com/i/status/xyz789"
    ensures link == "https://" + "twitter.com" + "/i/status/xyz789"
  {
  }

  lemma MediumParts(link: string)
    requires link == "https://medium.com/fitness/morning-routine"
    ensures link == "https://" + "medium.com" + "/fitness/morning-routine"
  {
  }

  /** Each demo button shows its link without the scheme. */
  lemma DemoLabels(i: int)
    requires 0 <= i < |DemoLinks|
    ensures DemoLabel(DemoLinks[i]) == DemoLinks[i][8..]
  {
    var link := DemoLinks[i];
    DemoLinkParts(i, link);
    if i == 0 {
      LinkLabel("www." + "instagram.com", "/reel/abc123");
    } else if i == 1 {
      LinkLabel("twitter.com", "/i/status/xyz789");
    } else {
      LinkLabel("medium.com", "/fitness/morning-routine");
    }
  }

  // ---------------------------------------------------------------------------
  // Which reply the demo links and a few typed texts get

  /** A needle with a character the haystack lacks cannot occur in it. */
  lemma AbsentCharExcludes(hay: string, needle: string, k: int)
    requires 0 <= k < |needle| && needle[k] !in hay
    ensures !Includes(hay, needle)
  {
    forall i | 0 <= i && i + |needle| <= |hay| ensures !OccursAt(hay, needle, i) {
      assert hay[i..i + |needle|][k] == hay[i + k];
      assert hay[i + k] in hay;
    }
  }

  /** The same, for a haystack that is a link and a needle character found in
      none of its parts. */
  lemma AbsentFromLink(host: string, path: string, needle: string, k: int)
    requires 0 <= k < |needle|
    requires needle[k] !in "https://" && needle[k] !in host && needle[k] !in path
    ensures !Includes(Link(host, path), needle)
  {
    AbsentCharExcludes(Link(host, path), needle, k);
  }

  /** `b` occurs in `a + b + c` right after `a`. */
  lemma OccursAfter(a: string, b: string, c: string)
    ensures OccursAt(a + b + c, b, |a|)
  {
    assert (a + b + c)[|a|..|a| + |b|] == b;
  }

  /** The three demo links get the Instagram, Twitter and blog replies. */
  lemma DemoLinksClassified(i: int)
    requires 0 <= i < |DemoLinks|
    ensures Classify(DemoLinks[i]) == [InstagramSaved, TwitterSaved, BlogSaved][i]
  {
    var link := DemoLinks[i];
    DemoLinkParts(i, link);
    if i == 0 {
      InstagramLinkClassified(link);
    } else if i == 1 {
      TwitterLinkClassified(link);
    } else {
      MediumLinkClassified(link);
    }
  }

  lemma InstagramLinkClassified(link: string)
    requires link == Link("www." + "instagram.com", "/reel/abc123")
    ensures Classify(link) == InstagramSaved
  {
    InstagramLinkMarkers("www.", "/reel/abc123");
  }

  lemma TwitterLinkClassified(link: string)
    requires link == Link("twitter.com", "/i/status/xyz789")
    ensures Classify(link) == TwitterSaved
  {
    TwitterLinkMarkers("/i/status/xyz789");
  }

  lemma MediumLinkClassified(link: string)
    requires link == Link("medium.com", "/fitness/morning-routine")
    ensures Classify(link) == BlogSaved
  {
    MediumLinkMarkers("/fitness/morning-routine");
  }

  lemma InstagramLinkMarkers(sub: string, path: string)
    ensures Includes(Link(sub + "instagram.com", path), "instagram.com")
  {
    OccursAfter("https://" + sub, "instagram.com", path);
    assert "https://" + sub + "instagram.com" + path == Link(sub + "instagram.com", path);
  }

  lemma TwitterLinkMarkers(path: string)
    requires 'g' !in path
    ensures !Includes(Link("twitter.com", path), "instagram.com")
    ensures Includes(Link("twitter.com", path), "twitter.com")
  {
    OccursAfter("https://", "twitter.com", path);
    assert 'g' !in "https://" && 'g' !in "twitter.com";
    AbsentFromLink("twitter.com", path, "instagram.com", 5);
  }

  lemma MediumLinkMarkers(path: string)
    requires 'a' !in path && 'w' !in path
    ensures !Includes(Link("medium.com", path), "instagram.com")
    ensures !Includes(Link("medium.com", path), "twitter.com")
    ensures Includes(Link("medium.com", path), "medium.com")
  {
    OccursAfter("https://", "medium.com", path);
    MediumLacks(path);
  }

  lemma MediumLacks(path: string)
    requires 'a' !in path && 'w' !in path
    ensures !Includes(Link("medium.com", path), "instagram.com")
    ensures !Includes(Link("medium.com", path), "twitter.com")
  {
    assert 'a' !in "https://" && 'a' !in "medium.com";
    assert 'w' !in "https://" && 'w' !in "medium.com";
    AbsentFromLink("medium.com", path, "instagram.com", 4);
    AbsentFromLink("medium.com", path, "twitter.com", 1);
  }

  /** "help" is found in any letter case. */
  lemma HelpInAnyCase()
    ensures Classify("HELP") == HelpText
  {
    var text := "HELP";
    AbsentCharExcludes(text, "instagram.com", 0);
    AbsentCharExcludes(text, "twitter.com", 0);
    AbsentCharExcludes(text, "medium.com", 0);
    AbsentCharExcludes(text, "blog", 0);
    assert Lower(text) == "help";
    assert OccursAt(Lower(text), "help", 0);
  }

  /** The link markers are matched case-sensitively. */
  lemma MarkersAreCaseSensitive()
    ensures Classify("Instagram.com") == NotALink
  {
    CapitalisedMarker("Instagram.com");
  }

  /** The proof for a text given as a parameter, so that the literal is
      unfolded once, where the parameter is pinned, rather than inside every
      step below. */
  lemma CapitalisedMarker(text: string)
    requires text == "Instagram.com"
    ensures Classify(text) == NotALink
  {
    AbsentCharExcludes(text, "instagram.com", 0);
    AbsentCharExcludes(text, "twitter.com", 1);
    AbsentCharExcludes(text, "medium.com", 2);
    AbsentCharExcludes(text, "blog", 0);
    forall i | 0 <= i < |text| ensures Lower(text)[i] != 'h' {
      assert text[i] != 'h' && text[i] != 'H';
    }
    AbsentCharExcludes(Lower(text), "help", 0);
  }
}
