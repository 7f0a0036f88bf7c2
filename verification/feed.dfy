/** The records the backend returns and the client-side aggregation that
    `loadFeed` performs on them: comments grouped by their entry, reaction
    rows counted per `${entry_id}-${emoji}` key. */
module Feed {
  import opened Options

  /** Entry ids as the page compares them: the string form it also writes
      into the `data-entry` / `data-entry-id` attributes. */
  type Id = string

  /** A row of the `entries` table; optional fields are nullable columns. */
  datatype Entry = Entry(
    id: Id,
    title: Option<string>,
    body: Option<string>,
    author: Option<string>,
    mood: Option<string>,
    createdAt: string,
    dateLabel: Option<string>,
    images: Option<seq<Option<string>>>)

  /** A row of the `comments` table. Comments the page appends itself after
      an insert carry only `entry_id`, `author` and `body`, so their id and
      timestamp are absent. */
  datatype Comment = Comment(
    id: Option<Id>,
    entryId: Id,
    author: Option<string>,
    body: string,
    createdAt: Option<string>)

  /** A row of the `reactions` table as selected (`entry_id, emoji`). */
  datatype Reaction = Reaction(entryId: Id, emoji: string)

  // ---------------------------------------------------------------------
  // Grouping comments by entry

  /** `commentsByEntry[id] || []`. */
  function GroupOf(g: map<Id, seq<Comment>>, id: Id): seq<Comment> {
    if id in g then g[id] else []
  }

  /** The ids that some comment of `cs` belongs to. */
  function CommentEntryIds(cs: seq<Comment>): set<Id> {
    set c | c in cs :: c.entryId
  }

  /** The `forEach` that pushes every fetched comment onto the list of its
      entry, in fetched order. Every list is non-empty and holds only
      comments of its own entry, and exactly the commented entries get one. */
  function Group(cs: seq<Comment>): (g: map<Id, seq<Comment>>)
    ensures g.Keys == CommentEntryIds(cs)
    ensures forall id :: id in g ==> g[id] != []
    ensures forall id, c :: id in g && c in g[id] ==> c.entryId == id
    decreases |cs|
  {
    if cs == [] then map[]
    else
      var init := cs[..|cs| - 1];
      var c := cs[|cs| - 1];
      var g := Group(init);
      CommentEntryIdsSnoc(cs);
      g[c.entryId := GroupOf(g, c.entryId) + [c]]
  }

  lemma CommentEntryIdsSnoc(cs: seq<Comment>)
    requires cs != []
    ensures CommentEntryIds(cs) == CommentEntryIds(cs[..|cs| - 1]) + {cs[|cs| - 1].entryId}
  {
  }

  /** Reference definition: the sub-sequence of `cs` whose entry is `id`,
      in the order of `cs`. */
  function CommentsOf(cs: seq<Comment>, id: Id): seq<Comment>
    decreases |cs|
  {
    if cs == [] then []
    else (if cs[0].entryId == id then [cs[0]] else []) + CommentsOf(cs[1..], id)
  }

  lemma {:induction false} CommentsOfAppend(cs: seq<Comment>, c: Comment, id: Id)
    ensures CommentsOf(cs + [c], id) == CommentsOf(cs, id) + (if c.entryId == id then [c] else [])
    decreases |cs|
  {
    if cs == [] {
      assert [c][1..] == [];
    } else {
      assert (cs + [c])[1..] == cs[1..] + [c];
      CommentsOfAppend(cs[1..], c, id);
    }
  }

  /** The list attached to entry `id` is exactly the fetched comments of
      that entry, in fetched order; an entry without comments gets []. */
  lemma {:induction false} GroupIsCommentsOf(cs: seq<Comment>, id: Id)
    ensures GroupOf(Group(cs), id) == CommentsOf(cs, id)
    decreases |cs|
  {
    if cs != [] {
      var init := cs[..|cs| - 1];
      var c := cs[|cs| - 1];
      assert cs == init + [c];
      GroupIsCommentsOf(init, id);
      CommentsOfAppend(init, c, id);
    }
  }

  lemma GroupIsCommentsOfAll(cs: seq<Comment>)
    ensures forall id :: GroupOf(Group(cs), id) == CommentsOf(cs, id)
  {
    forall id {
      GroupIsCommentsOf(cs, id);
    }
  }

  /** Grouping loses nothing and invents nothing: each comment sits in its
      entry's list exactly as often as it was fetched. */
  lemma {:induction false} CommentsOfCount(cs: seq<Comment>, id: Id, c: Comment)
    requires c.entryId == id
    ensures multiset(CommentsOf(cs, id))[c] == multiset(cs)[c]
    decreases |cs|
  {
    if cs != [] {
      assert cs == [cs[0]] + cs[1..];
      CommentsOfCount(cs[1..], id, c);
    }
  }

  // ---------------------------------------------------------------------
  // Counting reactions

  /** The key `${entryId}-${emoji}` the page counts under. */
  function ReactionKey(entryId: Id, emoji: string): string {
    entryId + "-" + emoji
  }

  function KeyOf(r: Reaction): string {
    ReactionKey(r.entryId, r.emoji)
  }

  /** `reactionCounts[key] || 0`. */
  function CountOf(m: map<string, nat>, k: string): nat {
    if k in m then m[k] else 0
  }

  function ReactionKeys(rs: seq<Reaction>): set<string> {
    set r | r in rs :: KeyOf(r)
  }

  /** The `forEach` that adds one to the key of every fetched reaction row.
      Keys are exactly those of the rows, and no stored count is zero. */
  function Count(rs: seq<Reaction>): (m: map<string, nat>)
    ensures m.Keys == ReactionKeys(rs)
    ensures forall k :: k in m ==> m[k] > 0
    decreases |rs|
  {
    if rs == [] then map[]
    else
      var init := rs[..|rs| - 1];
      var r := rs[|rs| - 1];
      var m := Count(init);
      ReactionKeysSnoc(rs);
      m[KeyOf(r) := CountOf(m, KeyOf(r)) + 1]
  }

  lemma ReactionKeysSnoc(rs: seq<Reaction>)
    requires rs != []
    ensures ReactionKeys(rs) == ReactionKeys(rs[..|rs| - 1]) + {KeyOf(rs[|rs| - 1])}
  {
  }

  /** Reference definition: how many rows of `rs` carry key `k`. */
  function Occurrences(rs: seq<Reaction>, k: string): nat
    decreases |rs|
  {
    if rs == [] then 0
    else (if KeyOf(rs[0]) == k then 1 else 0) + Occurrences(rs[1..], k)
  }

  lemma {:induction false} OccurrencesAppend(rs: seq<Reaction>, r: Reaction, k: string)
    ensures Occurrences(rs + [r], k) == Occurrences(rs, k) + (if KeyOf(r) == k then 1 else 0)
    decreases |rs|
  {
    if rs == [] {
      assert [r][1..] == [];
    } else {
      assert (rs + [r])[1..] == rs[1..] + [r];
      OccurrencesAppend(rs[1..], r, k);
    }
  }

  /** The count read for any key (absent keys read 0) is the number of
      fetched rows with that key. */
  lemma {:induction false} CountIsOccurrences(rs: seq<Reaction>, k: string)
    ensures CountOf(Count(rs), k) == Occurrences(rs, k)
    decreases |rs|
  {
    if rs != [] {
      var init := rs[..|rs| - 1];
      var r := rs[|rs| - 1];
      assert rs == init + [r];
      CountIsOccurrences(init, k);
      OccurrencesAppend(init, r, k);
    }
  }

  /** Inserting one more row and counting again is the same as adding one to
      that row's key: the page's local increment agrees with a reload. */
  lemma CountAppend(rs: seq<Reaction>, r: Reaction)
    ensures Count(rs + [r]) == Count(rs)[KeyOf(r) := CountOf(Count(rs), KeyOf(r)) + 1]
  {
  }

  // Keys and pairs

  /** Reference definition: rows for the pair (entry, emoji). */
  function PairOccurrences(rs: seq<Reaction>, entryId: Id, emoji: string): nat
    decreases |rs|
  {
    if rs == [] then 0
    else (if rs[0].entryId == entryId && rs[0].emoji == emoji then 1 else 0)
         + PairOccurrences(rs[1..], entryId, emoji)
  }

  predicate DashFree(s: string) {
    forall i :: 0 <= i < |s| ==> s[i] != '-'
  }

  /** The string key determines the pair as long as emojis contain no '-'
      (entry ids may: the split is at the last '-'). */
  lemma ReactionKeyInjective(e1: Id, m1: string, e2: Id, m2: string)
    requires DashFree(m1) && DashFree(m2)
    requires ReactionKey(e1, m1) == ReactionKey(e2, m2)
    ensures e1 == e2 && m1 == m2
  {
    var k := ReactionKey(e1, m1);
    KeyShape(e1, m1);
    KeyShape(e2, m2);
    assert |e1| == |e2|;
    assert e1 == k[..|e1|] == e2;
    assert m1 == k[|e1| + 1..] == m2;
  }

  /** In a key built from a dash-free emoji, the separator is the last '-'. */
  lemma KeyShape(e: Id, m: string)
    requires DashFree(m)
    ensures ReactionKey(e, m)[|e|] == '-'
    ensures forall j :: |e| < j < |ReactionKey(e, m)| ==> ReactionKey(e, m)[j] != '-'
  {
  }

  /** Without that condition the key is ambiguous: two different pairs
      share a counter. */
  lemma ReactionKeyCollision()
    ensures ReactionKey("a-b", "c") == ReactionKey("a", "b-c")
  {
  }

  /** With dash-free emojis, the count under `${entryId}-${emoji}` is the
      number of fetched rows for that (entry, emoji) pair. */
  lemma {:induction false} CountIsPairOccurrences(rs: seq<Reaction>, entryId: Id, emoji: string)
    requires DashFree(emoji)
    requires forall i :: 0 <= i < |rs| ==> DashFree(rs[i].emoji)
    ensures CountOf(Count(rs), ReactionKey(entryId, emoji)) == PairOccurrences(rs, entryId, emoji)
    decreases |rs|
  {
    CountIsOccurrences(rs, ReactionKey(entryId, emoji));
    OccurrencesIsPairOccurrences(rs, entryId, emoji);
  }

  lemma {:induction false} OccurrencesIsPairOccurrences(rs: seq<Reaction>, entryId: Id, emoji: string)
    requires DashFree(emoji)
    requires forall i :: 0 <= i < |rs| ==> DashFree(rs[i].emoji)
    ensures Occurrences(rs, ReactionKey(entryId, emoji)) == PairOccurrences(rs, entryId, emoji)
    decreases |rs|
  {
    if rs != [] {
      if KeyOf(rs[0]) == ReactionKey(entryId, emoji) {
        ReactionKeyInjective(rs[0].entryId, rs[0].emoji, entryId, emoji);
      }
      OccurrencesIsPairOccurrences(rs[1..], entryId, emoji);
    }
  }

  // Sum of all counts

  ghost function PickKey(m: map<string, nat>): (k: string)
    requires m != map[]
    ensures k in m
  {
    var k :| k in m; k
  }

  /** The sum of all values of a count map. */
  ghost function Total(m: map<string, nat>): nat
    decreases |m|
  {
    if m == map[] then 0
    else
      var k := PickKey(m);
      assert |m - {k}| < |m| by {
        assert (m - {k}).Keys == m.Keys - {k};
      }
      m[k] + Total(m - {k})
  }

  lemma {:induction false} TotalRemove(m: map<string, nat>, k: string)
    requires k in m
    ensures Total(m) == m[k] + Total(m - {k})
    decreases |m|
  {
    var p := PickKey(m);
    if p != k {
      assert (m - {p}).Keys == m.Keys - {p};
      assert (m - {k}).Keys == m.Keys - {k};
      TotalRemove(m - {p}, k);
      TotalRemove(m - {k}, p);
      assert m - {p} - {k} == m - {k} - {p};
    }
  }

  lemma TotalIncrement(m: map<string, nat>, k: string)
    ensures Total(m[k := CountOf(m, k) + 1]) == Total(m) + 1
  {
    var m' := m[k := CountOf(m, k) + 1];
    TotalRemove(m', k);
    assert m' - {k} == m - {k};
    if k in m {
      TotalRemove(m, k);
    } else {
      assert m - {k} == m;
    }
  }

  /** The counts add up to the number of fetched reaction rows. */
  lemma {:induction false} CountTotal(rs: seq<Reaction>)
    ensures Total(Count(rs)) == |rs|
    decreases |rs|
  {
    if rs != [] {
      var init := rs[..|rs| - 1];
      CountTotal(init);
      TotalIncrement(Count(init), KeyOf(rs[|rs| - 1]));
    }
  }
}
