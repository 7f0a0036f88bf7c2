/** The decisions `renderFeed`, `renderEntry`, `renderImages`,
    `renderReactionBtn` and `renderCommentHtml` make, as a structured view
    instead of HTML strings. Markdown and locale date formatting are
    libraries: the body is kept as source text and the formatted date is a
    parameter. */
module Render {
  import opened Options
  import opened JsText
  import opened Feed
  import App

  /** The four reaction buttons every card shows, in order:
      pig, rolling-on-the-floor-laughing, woman-facepalming, pile-of-poo. */
  const EmojiOptions: seq<string> := [
    "\U{1F437}", "\U{1F923}", "\U{1F926}\U{200D}\U{2640}\U{FE0F}", "\U{1F4A9}"
  ]

  /** None of the buttons' emojis contains '-', so their counter keys never
      collide. */
  lemma EmojiOptionsDashFree()
    ensures forall i :: 0 <= i < |EmojiOptions| ==> DashFree(EmojiOptions[i])
  {
  }

  // ---------------------------------------------------------------------
  // Reaction buttons

  /** `count > 0 ? count : ''`: blank for zero, else the decimal count. */
  function CountLabel(n: nat): (r: string)
    ensures r == "" <==> n == 0
    ensures forall i :: 0 <= i < |r| ==> IsDigit(r[i])
    ensures r != "" ==> ParseDecimal(r) == n
    ensures r != "" ==> r[0] != '0'
  {
    if n > 0 then DecimalRoundTrip(n); Decimal(n) else ""
  }

  datatype Button = Button(entryId: Id, emoji: string, caption: string)

  /** The four buttons of an entry, each labelled with the shared count under
      `${id}-${emoji}`, read as 0 when absent. */
  function Buttons(id: Id, reactions: map<string, nat>): (r: seq<Button>)
    ensures |r| == |EmojiOptions|
    ensures forall i :: 0 <= i < |r| ==>
      && r[i].entryId == id && r[i].emoji == EmojiOptions[i]
      && (r[i].caption == "" <==> CountOf(reactions, ReactionKey(id, EmojiOptions[i])) == 0)
      && (forall j :: 0 <= j < |r[i].caption| ==> IsDigit(r[i].caption[j]))
      && (r[i].caption != "" ==> ParseDecimal(r[i].caption) == CountOf(reactions, ReactionKey(id, EmojiOptions[i])))
      && (r[i].caption != "" ==> r[i].caption[0] != '0')
  {
    seq(|EmojiOptions|, i requires 0 <= i < |EmojiOptions| =>
      Button(id, EmojiOptions[i], CountLabel(CountOf(reactions, ReactionKey(id, EmojiOptions[i])))))
  }

  /** After a successful tap the button shows `entry.reactions[key] || ''`
      of the incremented count: never blank, and exactly the new count. */
  lemma TappedLabel(st: App.AppState, entryId: Id, emoji: string)
    requires App.HasEntry(st.entries, entryId)
    ensures var n := CountOf(App.React(st, entryId, emoji, App.Ok).reactions, ReactionKey(entryId, emoji));
      && CountLabel(n) != ""
      && ParseDecimal(CountLabel(n)) == CountOf(st.reactions, ReactionKey(entryId, emoji)) + 1
  {
  }

  // ---------------------------------------------------------------------
  // Images

  /** `filter(Boolean)` on an array of strings: drops nulls and "". */
  function TruthyStrings(xs: seq<Option<string>>): (r: seq<string>)
    ensures |r| <= |xs|
    ensures forall s :: s in r <==> s != "" && Some(s) in xs
    decreases |xs|
  {
    if xs == [] then []
    else
      var rest := TruthyStrings(xs[1..]);
      assert xs == [xs[0]] + xs[1..];
      if Truthy(xs[0]) then [xs[0].value] + rest else rest
  }

  /** `filter(Boolean)` looks at one element at a time: a single element is
      kept exactly when truthy ... */
  lemma TruthyStringsSingle(x: Option<string>)
    ensures TruthyStrings([x]) == if Truthy(x) then [x.value] else []
  {
    assert [x][1..] == [];
  }

  /** ... and the kept elements of a concatenation are those of each part,
      in order, so order and repetitions are preserved. */
  lemma {:induction false} TruthyStringsAppend(a: seq<Option<string>>, b: seq<Option<string>>)
    ensures TruthyStrings(a + b) == TruthyStrings(a) + TruthyStrings(b)
    decreases |a|
  {
    if a != [] {
      assert (a + b)[0] == a[0];
      assert (a + b)[1..] == a[1..] + b;
      TruthyStringsAppend(a[1..], b);
    } else {
      assert a + b == b;
    }
  }

  /** `Array.isArray(entry.images) ? entry.images.filter(Boolean) : []`. */
  function VisibleImages(images: Option<seq<Option<string>>>): (r: seq<string>)
    ensures images.None? ==> r == []
    ensures images.Some? ==> r == TruthyStrings(images.value)
    ensures forall s :: s in r ==> s != ""
  {
    if images.Some? then TruthyStrings(images.value) else []
  }

  datatype Gallery = NoGallery | Grid(columns: nat, sources: seq<string>)

  /** `renderImages`: nothing without images, a one-column grid for a single
      image, two columns for two or more; every visible image is shown, in
      order. */
  function ImageGallery(images: Option<seq<Option<string>>>): (g: Gallery)
    ensures g.NoGallery? <==> VisibleImages(images) == []
    ensures g.Grid? ==> g.sources == VisibleImages(images)
    ensures g.Grid? ==> (g.columns == 1 <==> |g.sources| == 1) && (g.columns == 1 || g.columns == 2)
  {
    var srcs := VisibleImages(images);
    if |srcs| == 0 then NoGallery
    else Grid(if |srcs| == 1 then 1 else 2, srcs)
  }

  // ---------------------------------------------------------------------
  // Texts with defaults

  /** `formatDateLabel`: the entry's own label when truthy, else the locale
      formatting of `created_at` (`formatted`, None when it throws), else
      'Gerade eben'. */
  function DateLabel(e: Entry, formatted: Option<string>): (r: string)
    ensures Truthy(e.dateLabel) ==> r == e.dateLabel.value
    ensures !Truthy(e.dateLabel) && formatted.Some? ==> r == formatted.value
    ensures !Truthy(e.dateLabel) && formatted.None? ==> r == "Gerade eben"
  {
    if Truthy(e.dateLabel) then e.dateLabel.value
    else match formatted
      case Some(s) => s
      case None => "Gerade eben"
  }

  const DefaultMood := "Neugierig \U{1F437}"
  const DefaultAuthor := "Schweini"
  const DefaultTitle := "Ohne Titel"

  // ---------------------------------------------------------------------
  // Comment styling

  datatype Hue = Teal | Pink | Blue | Yellow | Purple

  /** The colour chosen for a comment author: teal by default, then each
      later test overriding earlier ones: 'Mama' pink, 'Papa' blue, 'Wonkel'
      yellow, and any name starting with 'O' purple. */
  function CommentHue(name: Option<string>): (h: Hue)
    ensures h == Purple <==> name.Some? && StartsWith(name.value, "O")
    ensures h == Pink <==> name == Some("Mama")
    ensures h == Blue <==> name == Some("Papa")
    ensures h == Yellow <==> name == Some("Wonkel")
    ensures h == Teal <==>
      !(name.Some? && StartsWith(name.value, "O")) && name !in {Some("Mama"), Some("Papa"), Some("Wonkel")}
  {
    assert "Mama"[0] == 'M' && "Papa"[0] == 'P' && "Wonkel"[0] == 'W';
    var h0 := Teal;
    var h1 := if name == Some("Mama") then Pink else h0;
    var h2 := if name == Some("Papa") then Blue else h1;
    var h3 := if name == Some("Wonkel") then Yellow else h2;
    if name.Some? && StartsWith(name.value, "O") then Purple else h3
  }

  datatype Style = Style(border: string, dot: string, nameColor: string)

  /** The three classes each hue sets. Yellow names use the darker 700 shade. */
  function HueStyle(h: Hue): Style {
    match h
    case Teal => Style("border-teal-300", "bg-teal-500", "text-teal-600")
    case Pink => Style("border-pink-300", "bg-pink-500", "text-pink-600")
    case Blue => Style("border-blue-300", "bg-blue-500", "text-blue-600")
    case Yellow => Style("border-yellow-300", "bg-yellow-500", "text-yellow-700")
    case Purple => Style("border-purple-300", "bg-purple-500", "text-purple-600")
  }

  /** A persona of the identity prompt with the hue of its button classes
      (light background, border and dark text of that one hue). */
  datatype Persona = Persona(name: string, emoji: string, hue: Hue)

  const Identities: seq<Persona> := [
    Persona("Elisa", "\U{1F471}\U{200D}\U{2640}\U{FE0F}", Teal),
    Persona("Mama", "\U{1F469}\U{1F3FD}", Pink),
    Persona("Papa", "\U{1F9D4}", Blue),
    Persona("Oma", "\U{1F475}", Purple),
    Persona("Opa", "\U{1F474}", Purple),
    Persona("Wonkel", "\U{1F920}", Yellow),
    Persona("Schweini", "\U{1F437}", Teal)
  ]

  /** A comment signed with any persona of the prompt is styled in the hue
      of that persona's button. */
  lemma PersonaHuesAgree()
    ensures forall i :: 0 <= i < |Identities| ==> CommentHue(Some(Identities[i].name)) == Identities[i].hue
  {
    assert "Elisa"[0] == 'E' && "Schweini"[0] == 'S';
    assert "Oma"[..1] == "O" && "Opa"[..1] == "O";
  }

  // ---------------------------------------------------------------------
  // Cards

  datatype CommentView = CommentView(style: Style, name: string, body: string)

  /** `renderCommentHtml(c.author, c.body)`: the border, dot and name classes
      of the author's hue, the author or 'Schweini', and the body. */
  function ViewComment(c: Comment): (v: CommentView)
    ensures v.style == HueStyle(CommentHue(c.author)) && v.body == c.body
    ensures v.name == OrDefault(c.author, DefaultAuthor) && v.name != ""
  {
    CommentView(HueStyle(CommentHue(c.author)), OrDefault(c.author, DefaultAuthor), c.body)
  }

  datatype Card = Card(
    id: Id,
    dateLabel: string,
    mood: string,
    author: string,
    title: string,
    bodySource: string,
    gallery: Gallery,
    buttons: seq<Button>,
    comments: seq<CommentView>)

  /** `renderEntry`: one card holding the entry's fields with their
      defaults, its gallery, its four buttons and its comments in order. */
  function RenderEntry(fe: App.FeedEntry, reactions: map<string, nat>, formatted: Option<string>): (c: Card)
    ensures c.id == fe.entry.id
    ensures c.dateLabel == DateLabel(fe.entry, formatted)
    ensures c.mood == OrDefault(fe.entry.mood, DefaultMood) && c.mood != ""
    ensures c.author == OrDefault(fe.entry.author, DefaultAuthor) && c.author != ""
    ensures c.title == OrDefault(fe.entry.title, DefaultTitle) && c.title != ""
    ensures c.bodySource == OrDefault(fe.entry.body, "")
    ensures c.gallery == ImageGallery(fe.entry.images)
    ensures c.buttons == Buttons(fe.entry.id, reactions)
    ensures |c.buttons| == |EmojiOptions|
    ensures |c.comments| == |fe.comments|
    ensures forall j :: 0 <= j < |c.comments| ==> c.comments[j] == ViewComment(fe.comments[j])
  {
    var e := fe.entry;
    Card(
      e.id,
      DateLabel(e, formatted),
      OrDefault(e.mood, DefaultMood),
      OrDefault(e.author, DefaultAuthor),
      OrDefault(e.title, DefaultTitle),
      OrDefault(e.body, ""),
      ImageGallery(e.images),
      Buttons(e.id, reactions),
      seq(|fe.comments|, j requires 0 <= j < |fe.comments| => ViewComment(fe.comments[j])))
  }

  /** Cards do not show a comment's id or timestamp: entries whose comments
      agree in entry, author and body render to the same card. */
  lemma SameShownRendersAlike(fe1: App.FeedEntry, fe2: App.FeedEntry, reactions: map<string, nat>,
                              formatted: Option<string>)
    requires fe1.entry == fe2.entry
    requires App.SameShownSeq(fe1.comments, fe2.comments)
    ensures RenderEntry(fe1, reactions, formatted) == RenderEntry(fe2, reactions, formatted)
  {
    var c1 := RenderEntry(fe1, reactions, formatted);
    var c2 := RenderEntry(fe2, reactions, formatted);
    assert c1.comments == c2.comments;
  }

  datatype FeedView = EmptyState | Cards(cards: seq<Card>)

  /** `renderFeed`: the fixed empty-state message exactly when there are no
      entries, otherwise one card per entry in feed order. `format` stands
      for the locale formatting of a `created_at` value. */
  function RenderFeed(st: App.AppState, format: string -> Option<string>): (v: FeedView)
    ensures v.EmptyState? <==> st.entries == []
    ensures v.Cards? ==> |v.cards| == |st.entries|
    ensures v.Cards? ==> forall i :: 0 <= i < |v.cards| ==>
      v.cards[i] == RenderEntry(st.entries[i], st.reactions, format(st.entries[i].entry.createdAt))
  {
    if st.entries == [] then EmptyState
    else
      Cards(seq(|st.entries|, i requires 0 <= i < |st.entries| =>
        RenderEntry(st.entries[i], st.reactions, format(st.entries[i].entry.createdAt))))
  }

  /** After a load, every card lists its entry's fetched comments in fetched
      order, and every button shows the number of fetched rows for its
      (entry, emoji) pair. */
  lemma LoadedFeedShowsRows(st: App.AppState, es: seq<Entry>, cs: seq<Comment>, rs: seq<Reaction>,
                            format: string -> Option<string>, i: nat, k: nat)
    requires es != []
    requires forall j :: 0 <= j < |rs| ==> DashFree(rs[j].emoji)
    requires i < |es| && k < |EmojiOptions|
    ensures var v := RenderFeed(App.LoadFeed(st, App.Fetched(es), App.Fetched(cs), App.Fetched(rs)), format);
      && v.Cards?
      && |v.cards[i].comments| == |CommentsOf(cs, es[i].id)|
      && (forall j :: 0 <= j < |v.cards[i].comments| ==> v.cards[i].comments[j].body == CommentsOf(cs, es[i].id)[j].body)
      && (v.cards[i].buttons[k].caption == "" <==> PairOccurrences(rs, es[i].id, EmojiOptions[k]) == 0)
  {
    var st' := App.LoadFeed(st, App.Fetched(es), App.Fetched(cs), App.Fetched(rs));
    EmojiOptionsDashFree();
    CountIsPairOccurrences(rs, es[i].id, EmojiOptions[k]);
    assert st'.entries[i].comments == CommentsOf(cs, es[i].id);
  }
}
