# Schweini diary feed: a Dafny model

The diary page shows a feed of journal entries. Visitors comment under one of
seven personas and tap emoji reactions. The backend stores everything. The page
itself only does four things: it fetches the rows, groups and counts them in
the client, patches its in-memory cache after each successful insert, and picks
what each card shows. A build script writes the two backend settings into
`config.js`. The page refuses missing or placeholder values at start-up.

This project models that client logic as pure functions over immutable values:

- `options.dfy` (`Options`): `Option`, standing for `null`/`undefined`.
- `jstext.dfy` (`JsText`): the JavaScript string operations the page uses.
  These are `trim` with ECMAScript's exact whitespace set, `includes`,
  `startsWith`, truthiness, `v || default`, and the decimal rendering of a count.
- `feed.dfy` (`Feed`): the entry, comment and reaction records, and the two
  aggregation loops of `loadFeed`. Each loop is paired with an independent
  reference definition and proved equal to it.
- `app.dfy` (`App`): the page state, made of `entriesState`, the one
  reaction-count object every entry shares, and `pendingComment`. It also holds
  the handlers. Each handler is one atomic step that takes the backend's answer
  (`Ok`/`Err`, or fetched rows) as an input.
- `render.dfy` (`Render`): the decisions the renderers make. The output is a
  structured view: empty state or cards, plus defaults, gallery layout, button
  labels and comment colours.
- `config.dfy` (`SupabaseConfig`): the start-up guard, the build-time
  generator, and a reader for the generated text. The reader gives the
  generator's round trip.

Main results:

- Loading attaches to each entry exactly its fetched comments, in fetched
  order. The count read for a key is the number of rows with that key. All
  counts add up to the number of rows.
- The local patch after a successful comment or reaction insert is the state a
  reload would give if the new row came last in the table. This holds up to the
  id and timestamp the backend assigns the new comment, which no card shows.
- A failed insert changes nothing. Only the dismiss control or a successful
  save clears a pending comment.
- The build script writes both values verbatim, without escaping. The reader
  accepts only plain literals, so values holding a quote, a backslash or a line
  break do not read back. The script also lets placeholders through, and the
  page rejects them at start-up.

## Model

| member | source | states |
|---|---|---|
| Feed.Group | main.js:100-103 | each per-entry list is non-empty and holds only comments of that entry; the keys are exactly the entry ids some fetched comment has |
| Feed.GroupIsCommentsOf | main.js:100-103 | the list read for an entry (`|| []`) is exactly the sub-sequence of fetched comments with that `entry_id`, in fetched order, and `[]` for an entry without comments |
| Feed.CommentsOfCount | main.js:100-103 | grouping loses and duplicates nothing: a comment occurs in its entry's list as often as among the fetched rows |
| Feed.Count | main.js:109-112 | the count object has a key for exactly the keys of the fetched rows, and no stored count is 0 |
| Feed.CountIsOccurrences | main.js:109-112 | the count read for any key (0 when absent) equals the number of fetched rows with that key |
| Feed.CountTotal | main.js:109-112 | the counts sum to the number of fetched reaction rows |
| Feed.ReactionKeyInjective | main.js:110 | the string key `${entry_id}-${emoji}` determines entry and emoji when emojis contain no '-' |
| Feed.ReactionKeyCollision | main.js:110 | without that condition two different (entry, emoji) pairs share one key |
| Feed.CountIsPairOccurrences | main.js:109-111 | with dash-free emojis, the count for (entry, emoji) is the number of fetched rows with that pair |
| Feed.CountAppend | main.js:259 | adding one to a key equals recounting with one more row for that key |
| App.Initial | main.js:23-24 | the state before loading is well formed and mirrors empty tables |
| App.LoadFeed | main.js:84-119 | an entries error leaves the cache unchanged; otherwise entries keep backend order, each gets exactly its own comments, and counts are those of the fetched rows; with no entries no comment or reaction rows are used; the pending comment is kept |
| App.SubmitComment | main.js:219-228 | blank text (only `trim` whitespace) changes nothing; otherwise the pending comment becomes the form's entry and the trimmed text, which is non-empty and has no outer whitespace |
| App.Payload | main.js:233 | the inserted row carries the pending entry, the chosen persona and the pending text, and no id or timestamp |
| App.FindEntry | main.js:239 | returns the first index whose id matches, or nothing exactly when no entry has that id |
| App.SaveComment | main.js:230-248 | with no pending comment, or on an insert error, nothing changes; on success only the first entry with the pending id gains the payload at its end (ids are the table's primary key, see `App.StepKeepsUniqueIds`), counts are untouched, and the pending comment is cleared even if no entry matched |
| App.CancelComment | main.js:316-318 | the dismiss control clears the pending comment and touches no entry or count |
| App.React | main.js:250-259 | on an insert error nothing changes; on success the count under `${entryId}-${emoji}` goes up by one and every other count, entry and the pending comment stay as they were |
| App.Step | main.js:276-300 | every handler keeps each entry's comments belonging to that entry |
| App.Inserts | main.js:230-259 | choosing a persona with a comment pending inserts exactly the payload row, a tap inserts exactly the row (entry, emoji), and nothing else inserts anything |
| App.FailedWriteChangesNothing | main.js:235-237 | a failed comment or reaction insert leaves the whole state unchanged |
| App.PendingClearedOnlyBy | main.js:219-248 | a pending comment is cleared exactly by the dismiss control (line 317) or a successful save (line 247) |
| App.BlankSubmitIsInert | main.js:224-228 | blank text opens no prompt and issues no insert |
| App.DismissIsInert | main.js:316-318 | dismissing issues no insert and only clears the pending comment |
| App.SaveTouchesOnlyItsEntry | main.js:239-244 | with distinct ids, exactly the entry whose id is the pending one changes, by one appended comment; with no such entry no entry changes |
| App.SaveMatchesReload | main.js:239-243 | the local append agrees with reloading the comment table with the inserted row last, whatever id and timestamp the backend gave it: each entry's comments match the reload's in entry, author and body |
| App.StepKeepsUniqueIds | main.js:115-119 | when every load returns distinct entry ids, no handler makes two cached entries share an id |
| App.ReactMatchesReload | main.js:256-259 | the local increment agrees with reloading the reaction table with the new row last, and leaves comments as they were |
| App.TwoTapsCountTwo | main.js:258-259 | two successful taps on one button raise its count by two |
| JsText.Trim | main.js:225 | the result is empty exactly when the input is all whitespace, and otherwise neither starts nor ends with whitespace |
| JsText.TrimIsInfix | main.js:225 | the trimmed text is a contiguous piece of the input with only whitespace on either side |
| JsText.TrimIdempotent | main.js:225 | trimming twice equals trimming once |
| JsText.OrDefault | main.js:152-158 | a truthy value is kept and a null or empty one falls back to the default, so a non-empty default gives a non-empty text |
| JsText.DecimalRoundTrip | main.js:197 | reading back the decimal digits of a count gives the count |
| Render.CountLabel | main.js:197 | the label is blank exactly for 0, and otherwise is the canonical decimal of the count: digits with no leading zero that read back as the count |
| Render.Buttons | main.js:141-142 | four buttons in fixed emoji order, each blank exactly when the shared count for its key is 0 (absent keys read 0), else showing that count in canonical decimal (digits, no leading zero) |
| Render.TappedLabel | main.js:259-261 | after a successful tap the button label is never blank and shows the old count plus one |
| Render.EmojiOptionsDashFree | main.js:141 | the four button emojis contain no '-', so their keys never collide |
| Render.TruthyStrings | main.js:143 | the kept strings are exactly the non-null, non-empty elements |
| Render.TruthyStringsSingle | main.js:143 | one element is kept exactly when it is a non-empty string |
| Render.TruthyStringsAppend | main.js:143 | the kept strings of a concatenation are those of each part in order, so order and repetitions are preserved |
| Render.VisibleImages | main.js:143 | a missing image list shows no images; a present one shows exactly its `filter(Boolean)` (see the two lemmas below), and no shown source is empty |
| Render.ImageGallery | main.js:180-182 | no gallery exactly when no image is visible; otherwise all visible images in order, one column for exactly one image, two columns for more |
| Render.DateLabel | main.js:34-41 | a truthy `date_label` wins, then the formatted timestamp, then 'Gerade eben' when formatting throws |
| Render.CommentHue | main.js:202-209 | purple exactly for names starting with 'O' (overriding all else), pink/blue/yellow exactly for 'Mama'/'Papa'/'Wonkel', teal for everything else including a missing name |
| Render.PersonaHuesAgree | main.js:12-20 | a comment signed by any of the seven personas is coloured in the hue of that persona's prompt button |
| Render.ViewComment | main.js:202-216 | a comment carries the border, dot and name classes of its author's hue, shows its author or 'Schweini' when the author is missing, and keeps its body |
| Render.RenderEntry | main.js:140-177 | a card carries the entry's id, its date label, mood, author, title and body with their defaults (mood, author and title never empty), its gallery, its four buttons with their counts, and one comment view per comment in order |
| Render.SameShownRendersAlike | main.js:167 | a card shows no comment id or timestamp: entries whose comments agree in entry, author and body render to the same card |
| Render.RenderFeed | main.js:124-137 | the empty state appears exactly when there are no entries; otherwise one card per entry in feed order |
| Render.LoadedFeedShowsRows | main.js:115-119 | after a load each card lists its entry's fetched comments in fetched order, and a button is blank exactly when no fetched row has its (entry, emoji) pair |
| SupabaseConfig.Start | main.js:63-70 | the warning is shown, and no client created, exactly when the URL or key is empty or contains 'YOUR_SUPABASE' |
| SupabaseConfig.GenerateConfig | scripts/generate-config.js:6-13 | exit code 1 with nothing written exactly when either variable is unset or empty; otherwise the two-line `export const` text, URL first |
| SupabaseConfig.ParseConfig | scripts/generate-config.js:13 | whatever is read back from a text is exactly what the generator would write for those values, and both values are plain |
| SupabaseConfig.ConfigRoundTrip | scripts/generate-config.js:13 | values without quote, backslash or line break read back unchanged from the generated text |
| SupabaseConfig.UnplainValueBreaksRoundTrip | scripts/generate-config.js:13 | the reader accepts only plain literals, so a value with a quote, backslash or line break is read back from no text at all |
| SupabaseConfig.ValuesWrittenVerbatim | scripts/generate-config.js:13 | both values are written unescaped, each right after its opening quote |
| SupabaseConfig.PlaceholderPassesBuildOnly | scripts/generate-config.js:8-11 | any non-empty values pass the build's presence check, and the page still refuses them when one holds the placeholder |
| SupabaseConfig.BuildThenStart | main.js:64 | for values the build writes and the page reads back, the page refuses them exactly when one holds the placeholder |

## Left out

- Backend calls (`createClient`, the query builder, inserts): they are replaced by their answers, given as inputs. The `.in('entry_id', …)` filter and the `.order(…)` clauses run in the backend, so the model takes rows in the order the backend returns them.
- Asynchronous interleaving of handlers and reloads: each handler is one atomic step taken when its call completes.
- DOM work: HTML strings, `innerHTML`, class toggles, `lucideRefresh`, `alert`, the loader markup, the identity-prompt markup, the prompt's visibility, clearing the input field, and the lightbox with its timers.
- `marked.parse`: a card keeps the body's source text. `Intl.DateTimeFormat` is a parameter whose `None` stands for a thrown exception.
- `loadFeed`'s early return without a client: loading is reached only after `Start` has created one.
- `handleReaction` with no matching entry crashes in the source at main.js:257. A successful tap therefore requires the entry to be in the cache.
- The `if (!entry.reactions)` branch at main.js:257: after any load every entry holds the shared count object, so the branch is never taken.
- HTML escaping: the source does none, so there is nothing to state.
- The generator's `process.env`, `writeFileSync` and console output: only the exit outcome and the written text are modelled.
- JsText.Decimal: renders every count as plain decimal digits. JavaScript switches to exponent notation from 10^21 upward, which no reaction count reaches.
- Render.Identities: stores only each persona's name, icon and hue. The class strings of the prompt buttons (main.js:12-20) and their markup (main.js:43-50) are not modelled.
- App.SaveComment: appends to the first entry with the pending id only. After a load, entries with equal ids that have comments share one comments array (main.js:117), so the source's push (main.js:242) reaches all of them. Entry ids are the table's primary key, so the model treats them as distinct; `App.StepKeepsUniqueIds` shows no handler breaks that.
- Ids are modelled as strings. The ids the handlers receive come from `data-entry` attributes, which are always strings. But `e.id` at main.js:239 and main.js:256 is whatever the backend returns. If the backend returned numeric ids, `===` would never match. Then a saved comment would not be appended locally, though the pending comment would still be cleared. And `handleReaction` would throw at main.js:257 after its row had already been inserted. The model does not cover numeric ids.
- Feed.Group: models the grouping object of main.js:90 as a map with no inherited keys. In the source, `{}` inherits `Object.prototype`, so an entry id such as `constructor` or `toString` would read an inherited value. A comment on such an entry would make the push at main.js:102 throw, and an uncommented entry would get a function instead of `[]` at main.js:117. Entry ids are the table's primary keys and are taken never to be such names, so `Feed.GroupIsCommentsOf` promises `[]` for every id. Reaction keys always contain `-`, so the count object is not affected.
- The dismiss handler is attached to the first `button` inside `#identity-modal` (main.js:316). The page markup is not part of this model, so that button is taken to be the dismiss control. The persona buttons are rendered (main.js:312) before that query runs. If the persona list came first in the markup, the first persona's button would get the clearing handler instead. That handler runs before the delegated `saveComment` (main.js:297-299), so choosing that persona would then save nothing.

## Notes on the source

- The comment order inside an entry is the order the backend returns, which the query asks to be oldest-first (main.js:98). The client does not sort. The model therefore promises fetched order, not timestamp order.
- Styling singles out three exact names (Mama, Papa, Wonkel) plus every name starting with 'O'. `Render.CommentHue` follows the code. So any other name starting with 'O', for example "Otto", is purple too.
- All entries share one count object (main.js:118), and `handleReaction` increments it in place. A tap is therefore visible through every entry. The model keeps that object once, in the state.
