/** The page's in-memory state (`entriesState`, `pendingComment` and the one
    reaction-count object every entry shares) and the handlers that change
    it, each taken as one atomic step once its backend call has answered. */
module App {
  import opened Options
  import opened JsText
  import opened Feed

  /** An entry as held in `entriesState`: the fetched row plus its comments. */
  datatype FeedEntry = FeedEntry(entry: Entry, comments: seq<Comment>)

  /** `pendingComment` while the persona prompt is open. The originating
      input field is DOM state and is not modelled. */
  datatype PendingComment = PendingComment(entryId: Id, text: string)

  /** `reactions` is the single count object `loadFeed` attaches to every
      entry; since all entries share it, it is held once. */
  datatype AppState = AppState(
    entries: seq<FeedEntry>,
    reactions: map<string, nat>,
    pending: Option<PendingComment>)

  /** The answer to a select: its rows, or an error. */
  datatype Fetch<T> = Fetched(rows: T) | FetchError(message: string)

  /** The answer to an insert. */
  datatype Write = Ok | Err(message: string)

  /** The state before any load: `entriesState = []`, `pendingComment = null`. */
  function Initial(): (st: AppState)
    ensures WellFormed(st) && Mirrors(st, [], [])
  {
    AppState([], map[], None)
  }

  /** Every comment held under an entry belongs to that entry. */
  ghost predicate WellFormed(st: AppState) {
    forall i, j :: 0 <= i < |st.entries| && 0 <= j < |st.entries[i].comments| ==>
      st.entries[i].comments[j].entryId == st.entries[i].entry.id
  }

  /** The cache shows exactly what the comment rows `cs` and the reaction
      rows `rs` would produce: each entry holds its comments in row order and
      the counts are those of the rows. */
  ghost predicate Mirrors(st: AppState, cs: seq<Comment>, rs: seq<Reaction>) {
    && (forall i :: 0 <= i < |st.entries| ==> st.entries[i].comments == CommentsOf(cs, st.entries[i].entry.id))
    && st.reactions == Count(rs)
  }

  /** Two comments the page cannot tell apart: same entry, author and body.
      The id and timestamp the backend assigns are never shown. */
  predicate SameShown(a: Comment, b: Comment) {
    a.entryId == b.entryId && a.author == b.author && a.body == b.body
  }

  predicate SameShownSeq(a: seq<Comment>, b: seq<Comment>) {
    |a| == |b| && forall j :: 0 <= j < |a| ==> SameShown(a[j], b[j])
  }

  /** Like `Mirrors`, up to the ids and timestamps of the comment rows. */
  ghost predicate MirrorsShown(st: AppState, cs: seq<Comment>, rs: seq<Reaction>) {
    && (forall i :: 0 <= i < |st.entries| ==>
          SameShownSeq(st.entries[i].comments, CommentsOf(cs, st.entries[i].entry.id)))
    && st.reactions == Count(rs)
  }

  /** No two entry rows share an id, as the table's primary key ensures. */
  predicate UniqueRowIds(es: seq<Entry>) {
    forall i, j :: 0 <= i < j < |es| ==> es[i].id != es[j].id
  }

  function EntriesOf(es: seq<FeedEntry>): (r: seq<Entry>)
    ensures |r| == |es| && forall i :: 0 <= i < |es| ==> r[i] == es[i].entry
  {
    seq(|es|, i requires 0 <= i < |es| => es[i].entry)
  }

  predicate UniqueIds(es: seq<FeedEntry>) {
    UniqueRowIds(EntriesOf(es))
  }

  predicate HasEntry(es: seq<FeedEntry>, id: Id) {
    exists i :: 0 <= i < |es| && es[i].entry.id == id
  }

  // ---------------------------------------------------------------------
  // Loading the feed

  /** The rows of a select whose error is ignored (`data?.forEach`). */
  function RowsOr<T>(f: Fetch<seq<T>>): seq<T> {
    if f.Fetched? then f.rows else []
  }

  /** The comment and reaction rows a load takes in: none at all when there
      are no entries, because then neither query is issued. */
  function LoadedRows<T>(es: seq<Entry>, f: Fetch<seq<T>>): seq<T> {
    if es == [] then [] else RowsOr(f)
  }

  function Attach(es: seq<Entry>, g: map<Id, seq<Comment>>): (r: seq<FeedEntry>)
    ensures |r| == |es|
    ensures forall i :: 0 <= i < |es| ==> r[i] == FeedEntry(es[i], GroupOf(g, es[i].id))
  {
    seq(|es|, i requires 0 <= i < |es| => FeedEntry(es[i], GroupOf(g, es[i].id)))
  }

  /** `loadFeed`: on an entries error the cache is left alone; otherwise it is
      rebuilt from the fetched rows, newest-first entry order kept, each entry
      holding its own comments in fetched order and the counts those of the
      fetched reactions. An open prompt is not touched. */
  function LoadFeed(st: AppState, entries: Fetch<seq<Entry>>, comments: Fetch<seq<Comment>>,
                    reactions: Fetch<seq<Reaction>>): (r: AppState)
    ensures entries.FetchError? ==> r == st
    ensures r.pending == st.pending
    ensures entries.Fetched? ==>
      && |r.entries| == |entries.rows|
      && (forall i :: 0 <= i < |r.entries| ==> r.entries[i].entry == entries.rows[i])
      && Mirrors(r, LoadedRows(entries.rows, comments), LoadedRows(entries.rows, reactions))
      && WellFormed(r)
  {
    match entries
    case FetchError(_) => st
    case Fetched(es) =>
      var cs := LoadedRows(es, comments);
      var rs := LoadedRows(es, reactions);
      var g := Group(cs);
      GroupIsCommentsOfAll(cs);
      st.(entries := Attach(es, g), reactions := Count(rs))
  }

  // ---------------------------------------------------------------------
  // Comment submission

  /** `handleCommentSubmit` + `openIdentityModal`: blank text does nothing;
      otherwise the trimmed text and the form's entry become the pending
      comment (replacing any earlier one) and the prompt opens. */
  function SubmitComment(st: AppState, formEntryId: Id, text: string): (r: AppState)
    ensures IsBlank(text) ==> r == st
    ensures !IsBlank(text) ==>
      && r.entries == st.entries && r.reactions == st.reactions
      && r.pending.Some? && r.pending.value.entryId == formEntryId
      && r.pending.value.text == Trim(text)
    ensures !IsBlank(text) ==>
      var t := r.pending.value.text;
      t != [] && !IsSpace(t[0]) && !IsSpace(t[|t| - 1])
  {
    var t := Trim(text);
    if t == "" then st else st.(pending := Some(PendingComment(formEntryId, t)))
  }

  /** The row `saveComment` inserts, and appends locally on success. */
  function Payload(p: PendingComment, identity: string): (c: Comment)
    ensures c.entryId == p.entryId && c.author == Some(identity) && c.body == p.text
    ensures c.id.None? && c.createdAt.None?
  {
    Comment(None, p.entryId, Some(identity), p.text, None)
  }

  /** Index `i` is what `entriesState.find(e => e.id === id)` picks. */
  predicate IsFirstWithId(es: seq<FeedEntry>, i: int, id: Id) {
    0 <= i < |es| && es[i].entry.id == id && forall j :: 0 <= j < i ==> es[j].entry.id != id
  }

  /** `Array.prototype.find` on the entries by id. */
  function FindEntry(es: seq<FeedEntry>, id: Id): (r: Option<nat>)
    ensures r.Some? ==> IsFirstWithId(es, r.value, id)
    ensures r.None? <==> !HasEntry(es, id)
    decreases |es|
  {
    if es == [] then None
    else if es[0].entry.id == id then Some(0)
    else
      match FindEntry(es[1..], id)
      case None =>
        assert forall j :: 1 <= j < |es| ==> es[j] == es[1..][j - 1];
        None
      case Some(i) => Some(i + 1)
  }

  /** `saveComment(identity)` once the insert has answered `w`. Without a
      pending comment nothing happens; on an error nothing changes (the
      prompt stays open). On success the first entry with the pending id,
      and only it, gains the payload at the end of its comments, and the
      pending comment is cleared whether or not an entry matched. */
  function SaveComment(st: AppState, identity: string, w: Write): (r: AppState)
    ensures st.pending.None? ==> r == st
    ensures w.Err? ==> r == st
    ensures st.pending.Some? && w.Ok? ==>
      var p := st.pending.value;
      && r.pending.None?
      && r.reactions == st.reactions
      && |r.entries| == |st.entries|
      && forall i :: 0 <= i < |st.entries| ==>
           && r.entries[i].entry == st.entries[i].entry
           && r.entries[i].comments ==
                (if IsFirstWithId(st.entries, i, p.entryId)
                 then st.entries[i].comments + [Payload(p, identity)]
                 else st.entries[i].comments)
  {
    match st.pending
    case None => st
    case Some(p) =>
      if w.Err? then st
      else
        var es := st.entries;
        var es' :=
          match FindEntry(es, p.entryId)
          case None => es
          case Some(i) => es[i := es[i].(comments := es[i].comments + [Payload(p, identity)])];
        AppState(es', st.reactions, None)
  }

  /** The payload carries the pending entry id, so a save keeps every entry's
      comments its own. */
  lemma SaveKeepsWellFormed(st: AppState, identity: string, w: Write)
    ensures WellFormed(st) ==> WellFormed(SaveComment(st, identity, w))
  {
    var r := SaveComment(st, identity, w);
    if WellFormed(st) && st.pending.Some? && w.Ok? {
      forall i, j | 0 <= i < |r.entries| && 0 <= j < |r.entries[i].comments|
        ensures r.entries[i].comments[j].entryId == r.entries[i].entry.id
      {
        if IsFirstWithId(st.entries, i, st.pending.value.entryId) && j == |st.entries[i].comments| {
          assert r.entries[i].comments[j] == Payload(st.pending.value, identity);
        }
      }
    }
  }

  /** The prompt's dismiss control: `pendingComment = null`, no write. */
  function CancelComment(st: AppState): (r: AppState)
    ensures r.pending.None?
    ensures r.entries == st.entries && r.reactions == st.reactions
  {
    st.(pending := None)
  }

  // ---------------------------------------------------------------------
  // Reactions

  /** `handleReaction` once the insert has answered `w`. On an error nothing
      changes; on success exactly the counter `${entryId}-${emoji}` goes up
      by one. The source dereferences the found entry unguarded, so a
      successful tap needs the entry to be in the cache. */
  function React(st: AppState, entryId: Id, emoji: string, w: Write): (r: AppState)
    requires w.Ok? ==> HasEntry(st.entries, entryId)
    ensures w.Err? ==> r == st
    ensures w.Ok? ==>
      && r.entries == st.entries && r.pending == st.pending
      && CountOf(r.reactions, ReactionKey(entryId, emoji)) == CountOf(st.reactions, ReactionKey(entryId, emoji)) + 1
      && forall k :: k != ReactionKey(entryId, emoji) ==> CountOf(r.reactions, k) == CountOf(st.reactions, k)
  {
    if w.Err? then st
    else
      var key := ReactionKey(entryId, emoji);
      st.(reactions := st.reactions[key := CountOf(st.reactions, key) + 1])
  }

  // ---------------------------------------------------------------------
  // Events

  /** What can happen to the page, each with the backend's answer. */
  datatype Event =
    | SubmitForm(formEntryId: Id, text: string)
    | ChooseIdentity(identity: string, insert: Write)
    | DismissPrompt
    | TapReaction(entryId: Id, emoji: string, insert: Write)
    | Reload(entryRows: Fetch<seq<Entry>>, commentRows: Fetch<seq<Comment>>, reactionRows: Fetch<seq<Reaction>>)

  /** The rows an event asks the backend to insert. */
  datatype Insert = InsertComment(comment: Comment) | InsertReaction(reaction: Reaction)

  predicate CanStep(st: AppState, ev: Event) {
    ev.TapReaction? && ev.insert.Ok? ==> HasEntry(st.entries, ev.entryId)
  }

  /** One handler run to completion. Every handler keeps each entry's
      comments its own. */
  function Step(st: AppState, ev: Event): (r: AppState)
    requires CanStep(st, ev)
    ensures WellFormed(st) ==> WellFormed(r)
  {
    match ev
    case SubmitForm(id, text) => SubmitComment(st, id, text)
    case ChooseIdentity(identity, w) =>
      SaveKeepsWellFormed(st, identity, w);
      SaveComment(st, identity, w)
    case DismissPrompt => CancelComment(st)
    case TapReaction(id, emoji, w) => React(st, id, emoji, w)
    case Reload(es, cs, rs) => LoadFeed(st, es, cs, rs)
  }

  /** The inserts an event issues: one comment when a persona is chosen with
      a comment pending, one reaction per tap, nothing otherwise. */
  function Inserts(st: AppState, ev: Event): (r: seq<Insert>)
    ensures r != [] <==> (ev.ChooseIdentity? && st.pending.Some?) || ev.TapReaction?
    ensures ev.ChooseIdentity? && st.pending.Some? ==>
      r == [InsertComment(Payload(st.pending.value, ev.identity))]
    ensures ev.TapReaction? ==> r == [InsertReaction(Reaction(ev.entryId, ev.emoji))]
  {
    match ev
    case ChooseIdentity(identity, _) =>
      if st.pending.Some? then [InsertComment(Payload(st.pending.value, identity))] else []
    case TapReaction(id, emoji, _) => [InsertReaction(Reaction(id, emoji))]
    case _ => []
  }

  // ---------------------------------------------------------------------
  // Properties of the handlers

  /** A failed insert leaves the whole state exactly as it was. */
  lemma FailedWriteChangesNothing(st: AppState, ev: Event)
    requires CanStep(st, ev)
    requires (ev.ChooseIdentity? || ev.TapReaction?) && ev.insert.Err?
    ensures Step(st, ev) == st
  {
  }

  /** A pending comment is cleared only by the dismiss control or by a
      successful save, and each of those always clears it. */
  lemma PendingClearedOnlyBy(st: AppState, ev: Event)
    requires CanStep(st, ev)
    requires st.pending.Some?
    ensures Step(st, ev).pending.None? <==> ev.DismissPrompt? || (ev.ChooseIdentity? && ev.insert.Ok?)
  {
  }

  /** Blank text never opens the prompt and inserts nothing. */
  lemma BlankSubmitIsInert(st: AppState, id: Id, text: string)
    requires IsBlank(text)
    ensures Step(st, SubmitForm(id, text)) == st
    ensures Inserts(st, SubmitForm(id, text)) == []
  {
  }

  /** Dismissing the prompt inserts nothing and touches no entry or count. */
  lemma DismissIsInert(st: AppState)
    ensures Inserts(st, DismissPrompt) == []
    ensures Step(st, DismissPrompt) == st.(pending := None)
  {
  }

  /** With distinct entry ids, a successful save changes exactly the entry
      whose id is the pending one, appending the saved comment to it; when no
      entry has that id no entry changes. */
  lemma SaveTouchesOnlyItsEntry(st: AppState, identity: string)
    requires st.pending.Some?
    requires UniqueIds(st.entries)
    ensures var r := SaveComment(st, identity, Ok);
      && |r.entries| == |st.entries|
      && forall i :: 0 <= i < |st.entries| ==>
           if st.entries[i].entry.id == st.pending.value.entryId
           then r.entries[i] == st.entries[i].(comments := st.entries[i].comments + [Payload(st.pending.value, identity)])
           else r.entries[i] == st.entries[i]
  {
  }

  /** The local append after a successful save agrees with reloading the
      comment table with the inserted row at its end, whatever id and
      timestamp the backend gave that row (ids distinct). */
  lemma SaveMatchesReload(st: AppState, identity: string, cs: seq<Comment>, rs: seq<Reaction>, row: Comment)
    requires st.pending.Some?
    requires UniqueIds(st.entries)
    requires MirrorsShown(st, cs, rs)
    requires SameShown(row, Payload(st.pending.value, identity))
    ensures MirrorsShown(SaveComment(st, identity, Ok), cs + [row], rs)
  {
    var r := SaveComment(st, identity, Ok);
    var p := st.pending.value;
    forall i | 0 <= i < |r.entries|
      ensures SameShownSeq(r.entries[i].comments, CommentsOf(cs + [row], r.entries[i].entry.id))
    {
      var id := st.entries[i].entry.id;
      CommentsOfAppend(cs, row, id);
      if IsFirstWithId(st.entries, i, p.entryId) {
        SameShownSnoc(st.entries[i].comments, CommentsOf(cs, id), Payload(p, identity), row);
      } else {
        assert id != p.entryId;
      }
    }
  }

  lemma SameShownSnoc(a: seq<Comment>, b: seq<Comment>, x: Comment, y: Comment)
    requires SameShownSeq(a, b) && SameShown(x, y)
    ensures SameShownSeq(a + [x], b + [y])
  {
  }

  /** The local increment after a successful tap agrees with reloading the
      reaction table with the new row at its end. */
  lemma ReactMatchesReload(st: AppState, entryId: Id, emoji: string, cs: seq<Comment>, rs: seq<Reaction>)
    requires HasEntry(st.entries, entryId)
    requires MirrorsShown(st, cs, rs)
    ensures MirrorsShown(React(st, entryId, emoji, Ok), cs, rs + [Reaction(entryId, emoji)])
  {
    CountAppend(rs, Reaction(entryId, emoji));
  }

  /** Entry ids are the table's primary key: if every load returns distinct
      ids, the cache never holds two entries with one id. */
  lemma StepKeepsUniqueIds(st: AppState, ev: Event)
    requires CanStep(st, ev)
    requires UniqueIds(st.entries)
    requires ev.Reload? && ev.entryRows.Fetched? ==> UniqueRowIds(ev.entryRows.rows)
    ensures UniqueIds(Step(st, ev).entries)
  {
  }

  /** Two successful taps on the same button add two to its count. */
  lemma TwoTapsCountTwo(st: AppState, entryId: Id, emoji: string)
    requires HasEntry(st.entries, entryId)
    ensures var r := React(React(st, entryId, emoji, Ok), entryId, emoji, Ok);
      CountOf(r.reactions, ReactionKey(entryId, emoji)) == CountOf(st.reactions, ReactionKey(entryId, emoji)) + 2
  {
  }
}
