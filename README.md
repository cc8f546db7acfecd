# kotonoha study core, modelled in Dafny

kotonoha is a vocabulary tool: a deck of dictionary entries is studied in
sessions, each answer is graded 0 (easiest) to 3 (hardest), and the SM-2
algorithm of SuperMemo decides when an entry is due again. This project
models the renderer's core in Dafny and proves properties of it:

- `scheduler.dfy` (module `Scheduler`): the SM-2 update of a score.
- `model.dfy` (module `DeckModel`): the study model of one loaded deck. It covers
  the last attempt of an entry, its due date and its step (New, Review, Done),
  filtering by step, building a session queue and the question / answer / grade /
  next cycle. `Model` is a class whose methods update the score sheet and the
  session in place.
- `utils.dfy` (module `Utils`): `range`, the in-place Fisher–Yates `shuffle`,
  `selectRandom`, and the JSON reviver that turns timestamp strings into dates.
- `store.dfy` (module `DeckStore`): the `Deck` class with its word index,
  `getAllEntries`, scores and attempts.
- `ewl.dfy` (module `Ewl`): conversion of a word-list tree into entries. It uses
  the definition-line expression and parses derivatives one level deep.
- `ewl_legacy.dfy` (module `EwlLegacy`): the older conversion, which parses
  derivatives to any depth.
- `store_base.dfy` (module `Listeners`): the listener list of `StoreBase`.
- `wrappers.dfy` (module `Wrappers`): `Option` and "no duplicates" for sequences.

Conventions of the model:

- Time is an integer number of milliseconds.
- A day is 86 400 000 ms long and starts at a multiple of that. `setHours(0, 0, 0, 0)` is `Midnight(Day(t))`.
- The clock `new Date()` is one parameter `now` per operation. The code reads the clock anew in every `getStep` call (src/renderer/model.ts:161), so once per entry in each `filterCards`, and again for the grading time (src/renderer/model.ts:205); the model takes all readings of one operation to be the same instant.
- `Math.random()` is a sequence of draws. `swaps[i]` is the index that the shuffle exchanges with index `i`; it lies in `0..i`.
- Grades, qualities and ease factors are exact reals.
- The model holds one deck, so the `deckID` arguments are dropped.
- A deck's entries are the sequence of entry ids in `Object.values` order.

## Model

| member | source | states |
|---|---|---|
| Scheduler.Sm2 | src/renderer/scheduler.ts:2-25 | Keeps the id. A pass (quality ≥ 3) adds one repetition; its interval is 1 day at the first repetition, 6 at the second and `round(interval × EF)` after that. A lapse resets repetitions to 0 and the interval to 1. The new EF is `EF + 0.1 − (5−q)(0.08 + (5−q)·0.02)`, floored at 1.3 |
| Scheduler.Round | src/renderer/scheduler.ts:9 | `Math.round`: the result is within half of `x`, halves rounded up |
| Scheduler.Quality | src/renderer/model.ts:229 | Grade 0 gives quality 5 and grade 3 gives 0; a grade in 0..3 maps to a quality in 0..5. It is a pass (quality ≥ 3) exactly when the grade is at most 1.2, so whole grades 0 and 1 pass and 2 and 3 lapse |
| Scheduler.Sm2KeepsScoreValid | src/renderer/scheduler.ts:3-22 | A valid score stays valid: repetitions ≥ 0, EF ≥ 1.3, interval ≥ 1 |
| Scheduler.Sm2IntervalGrows | src/renderer/scheduler.ts:8-10 | From the third repetition on, a pass never shortens the interval |
| Scheduler.EaseDeltaMonotone | src/renderer/scheduler.ts:18 | A higher quality never changes EF less. The change is at most 0.1, which quality 5 reaches |
| Scheduler.EaseFactorBounds | src/renderer/scheduler.ts:18-22 | EF rises by at most 0.1, and by exactly 0.1 for quality 5 |
| Scheduler.TwoPassesFromFresh | src/renderer/scheduler.ts:3-12 | Two passes from repetitions 0 give intervals 1 then 6 and repetitions 1 then 2 |
| Scheduler.PerfectRecallOnDefault | src/renderer/scheduler.ts:2-25 | Quality 5 on the default score `{0, 2.5, 1}` gives `{1, 2.6, 1}` |
| Utils.Range | src/renderer/utils.ts:1-3 | `range(start, end)` is `start, start+1, …, end−1`; it is empty when `end ≤ start` |
| Utils.RangeConcat | src/renderer/utils.ts:1-3 | Adjacent ranges concatenate into one range |
| Utils.Swap | src/renderer/utils.ts:43-45 | The three-assignment swap exchanges two cells, leaves the others alone and keeps the multiset |
| Utils.FisherYates | src/renderer/utils.ts:40-46 | Any number of the countdown steps is a permutation: same length, same multiset |
| Utils.FisherYatesIdentity | src/renderer/utils.ts:40-46 | When every draw equals its own index, nothing moves |
| Utils.Shuffle | src/renderer/utils.ts:39-47 | The array after the in-place loop is the Fisher–Yates shuffle of the old array under the draws, and a permutation of it. The identical `shuffle` of src/renderer/model.ts:264-272 is modelled by the same method |
| Utils.Shuffled | src/renderer/utils.ts:39-47 | `shuffle` keeps the length and the elements: the result is a permutation of the input |
| Utils.ShuffledPrefixIsDrawn | src/renderer/utils.ts:49-53 | Any prefix of a shuffle is a sub-multiset of the input |
| Utils.Resized | src/renderer/utils.ts:52 | Setting `length = count` keeps the first `count` elements and pads with empty slots |
| Utils.PresentOfResized | src/renderer/utils.ts:52 | The present elements after resizing are the first `min(count, length)` elements |
| Utils.SelectRandom | src/renderer/utils.ts:49-54 | Returns `count` slots: the shuffle of a clone, resized. The input array is not modified |
| Utils.SelectRandomDrawsFromInput | src/renderer/utils.ts:49-54 | The non-empty slots number `min(count, length)` and form a sub-multiset of the input |
| Utils.IsTimestamp | src/renderer/utils.ts:26 | A string the timestamp expression accepts is 24 characters long, with `-` at 4 and 7, `T` at 10, `:` at 13 and 16, `.` at 19 and `Z` at 23 |
| Utils.TimestampLayout | src/renderer/utils.ts:26 | The timestamp expression accepts exactly the 24-character strings with digits at 17 fixed places and `-`, `-`, `T`, `:`, `:`, `.`, `Z` at the other 7. src/renderer/store.ts:50 declares the same expression |
| Utils.TimestampNoRangeCheck | src/renderer/utils.ts:26 | Out-of-range months and hours still match; a timestamp without milliseconds does not |
| Utils.Revive | src/renderer/utils.ts:28-35 | A value becomes a date exactly when it is a string of the timestamp shape. Every other value is returned unchanged. `Deck.fromJSON` (src/renderer/store.ts:105-111) uses the same reviver |
| DeckModel.Midnight | src/renderer/model.ts:155 | Midnight of a day lies in that day and is a whole number of days |
| DeckModel.DayBounds | src/renderer/model.ts:154-155 | A time lies between its day's midnight and the next one |
| DeckModel.LastAttempt | src/renderer/model.ts:132-143 | The attempt found, when there is one, is one of the deck's attempts and is for the entry asked about |
| DeckModel.LastAttemptIsLastMatch | src/renderer/model.ts:132-143 | The last attempt is absent exactly when no attempt is for the entry. Otherwise it is the attempt at the last index for the entry |
| DeckModel.LastAttemptAppend | src/renderer/model.ts:132-143 | After an append, the new attempt is the last one for its own entry; the other entries are unaffected |
| DeckModel.Model.GetLastAttempt | src/renderer/model.ts:132-143 | The scan loop returns the last attempt for the entry |
| DeckModel.GetDueDate | src/renderer/model.ts:145-157 | `null` exactly when there is no last attempt or it has no question time. Otherwise an invalid date exactly when the entry has no score. Otherwise midnight of the question day plus the interval |
| DeckModel.NoDueDateIffNoAttempt | src/renderer/model.ts:145-150 | When every attempt has a question time, there is no due date exactly when the entry has no attempt |
| DeckModel.GetStep | src/renderer/model.ts:159-170 | New exactly when there is no due date. Review exactly when there is a valid due date before `now`. Otherwise Done, including an invalid date |
| DeckModel.FilterMembers | src/renderer/model.ts:172-176 | An id is kept exactly when it is in the deck with that step. The result has no repeats when the deck has none |
| DeckModel.FilterCards | src/renderer/model.ts:172-176 | Keeps no more ids than the deck has, and every id kept has the requested step by `getStep` at `now` |
| DeckModel.FilterCardsMembers | src/renderer/model.ts:172-176 | Exactly the deck ids whose `getStep` at `now` is the given step are kept; no repeats when the deck has none |
| DeckModel.FilterPartition | src/renderer/model.ts:172-176 | The three filters split the entries: their multisets add up to the deck's |
| DeckModel.FilterCardsPartition | src/renderer/model.ts:172-176 | Every entry is in exactly one step. The three sizes add up to the deck size |
| DeckModel.SelectRandomly | src/renderer/model.ts:274-283 | Returns the first `min(max, length)` elements of the shuffled clone, drawn from the input. The input is not modified |
| DeckModel.SelectedNew | src/renderer/model.ts:180 | At most ten New entries are selected: exactly the smaller of 10 and the number of New ids |
| DeckModel.BuildQueue | src/renderer/model.ts:179-181 | Selecting New ids at random, appending them to the Review ids and shuffling in place builds exactly the session queue |
| DeckModel.SessionQueue | src/renderer/model.ts:178-182 | The queue holds as many ids as there are Review entries plus `min(10, New entries)` |
| DeckModel.SessionQueuePermutes | src/renderer/model.ts:178-184 | The queue is a permutation of the Review ids plus the selected New ids, which are drawn from the New ids. `slice(0, 10)` does not cut it |
| DeckModel.NoDupAppendDrawn | src/renderer/model.ts:180 | Review ids followed by a draw from disjoint, duplicate-free New ids repeat nothing |
| DeckModel.SessionQueueMembers | src/renderer/model.ts:178-184 | The queue holds every Review entry, and otherwise only New entries |
| DeckModel.SessionQueueNoDup | src/renderer/model.ts:178-184 | A deck without repeated ids gives a queue without repeats |
| DeckModel.InitialQueue | src/renderer/model.ts:178-184 | The initial queue has as many ids as there are Review entries, plus the smaller of 10 and the number of New entries. It includes every entry due for review and no Done entry. It has no repeats when the deck has none |
| DeckModel.Model.InitializeSession | src/renderer/model.ts:178-184 | Sets the session to the shuffled queue with no question or answer time. The deck and score sheet are unchanged |
| DeckModel.Model.StartAttempt | src/renderer/model.ts:186-191 | Sets the question time to `now` and clears the answer time. Nothing else changes |
| DeckModel.Model.AnswerAttempt | src/renderer/model.ts:193-197 | Sets the answer time to `now`. Nothing else changes |
| DeckModel.GradedAttempt | src/renderer/model.ts:204-219 | The recorded attempt is for the head of the queue, carries the grade and the grading time, and its step is computed at grading time |
| DeckModel.Rescored | src/renderer/model.ts:221-231 | A Done step leaves the scores alone. Otherwise the entry gets the SM-2 update of its score, or of the default `{0, 2.5, 1}`, at quality `(3 − grade)·5/3`. Other entries keep theirs |
| DeckModel.RescoredKeepsScoresValid | src/renderer/model.ts:221-231 | Grading keeps every score valid and filed under its own id |
| DeckModel.Model.GradeAttempt | src/renderer/model.ts:199-234 | A grade outside 0..3 is rejected and nothing changes. Otherwise exactly one attempt is appended and the scores become `Rescored`. The session is untouched |
| DeckModel.GradedDueDate | src/renderer/model.ts:199-234 | After grading, the due date is midnight of the question day plus the entry's interval. This holds after a Done grade too |
| DeckModel.FirstGradeDueNextDay | src/renderer/model.ts:199-234 | The first grade of an entry is recorded as New and gives a one-day interval. The entry is Done for the rest of that day and Review after the next midnight |
| DeckModel.Model.Next | src/renderer/model.ts:236-240 | Drops the head of the queue; an empty queue stays empty. Nothing else changes |
| Ewl.LeadingSpaces | src/renderer/ewl.js:3 | Counts the greedy `\s+` run: all white space, and the next character, if any, is not |
| Ewl.TagOf | src/renderer/ewl.js:3 | The tag found is one of the six alternatives and a prefix of the line |
| Ewl.TagOfFindsTag | src/renderer/ewl.js:3 | No tag is a prefix of another, so a line starting with a tag yields that tag |
| Ewl.MatchDefinition | src/renderer/ewl.js:3 | `definitionExp.exec` as used at src/renderer/ewl.js:22: a match has one of the six tags, found at the start of the line, as part of speech, and a non-empty definition without line terminators |
| Ewl.MatchAfterTagSound | src/renderer/ewl.js:3 | After the tag, a match is white space followed by a non-empty second group without line terminators |
| Ewl.MatchDefinitionSound | src/renderer/ewl.js:3 | A match is a tag, one or more white space characters and a non-empty rest without line terminators |
| Ewl.ShapeAfterTag | src/renderer/ewl.js:3 | A line that starts with a tag and is matched after it is the tag, white space and the definition |
| Ewl.MatchDefinitionComplete | src/renderer/ewl.js:3 | Every line of that shape is matched, with its tag as part of speech |
| Ewl.MatchAfterSpaces | src/renderer/ewl.js:3 | After a tag, white space followed by a non-empty rest without line terminators is matched, with that tag |
| Ewl.LeadingSpacesCover | src/renderer/ewl.js:3 | White space at the front is all counted by the greedy run |
| Ewl.NonDefinitions | src/renderer/ewl.js:21-33 | Every derivative line is one of the children |
| Ewl.ChildrenSplit | src/renderer/ewl.js:21-33 | Each child line becomes a definition or a derivative, so the two counts add up to the number of children |
| Ewl.DefinitionsAppend | src/renderer/ewl.js:21-33 | Definitions and derivatives follow the order of the lines |
| Ewl.DefinitionsFromLines | src/renderer/ewl.js:22-27 | Every definition is the match of some child line, and its part of speech is one of the six tags |
| Ewl.ParseEntry | src/renderer/ewl.js:16-40 | The entry's word is the node's line. It has a derivatives field exactly when derivatives are parsed, then with one derivative per non-matching child line, and no derivative has a derivatives field of its own |
| Ewl.ParseEntryShape | src/renderer/ewl.js:16-40 | A top-level entry has its line as word and a derivatives field. Definitions plus derivatives equal the children. Each derivative has its line as word and no derivatives field |
| Ewl.NestedEntryDropsDerivatives | src/renderer/ewl.js:28-39 | Inside a derivative the non-matching lines are dropped |
| Ewl.Parse | src/renderer/ewl.js:5-14 | One entry per top-level line, in order |
| EwlLegacy.ParseEntry | src/ewl.js:16-34 | The entry's word is the node's line; there is one derivative per non-matching child line, whose word is that line |
| EwlLegacy.Parse | src/ewl.js:5-14 | One entry per top-level line, in order |
| EwlLegacy.ParseEntryAccounts | src/ewl.js:16-34 | At every depth, an entry's definitions and derivatives together account for its children. Each derivative accounts for the line it came from |
| EwlLegacy.RendererParseIsTruncated | src/ewl.js:16-34 | The renderer's one-level parse equals this unbounded parse cut after the first level of derivatives |
| DeckStore.Group | src/renderer/store.ts:79-87 | An entry comes first in its own group |
| DeckStore.Flatten | src/renderer/store.ts:76-90 | Every entry of the deck is in `getAllEntries`, which is at least as long as the entries |
| DeckStore.FlattenAppend | src/renderer/store.ts:76-90 | Flattening distributes over concatenation of entry lists |
| DeckStore.FlattenLength | src/renderer/store.ts:76-90 | The flattened list has one element per entry plus one per derivative |
| DeckStore.FlattenLayout | src/renderer/store.ts:79-87 | Each entry appears right after the flattening of the entries before it, immediately followed by its derivatives |
| DeckStore.Deck.GetAllEntries | src/renderer/store.ts:76-90 | The nested push loops build exactly the flattened entry list |
| DeckStore.WordIndex | src/renderer/store.ts:69-73 | Each key of the index maps to an entry with that key as its word |
| DeckStore.IndexEntries | src/renderer/store.ts:69-73 | The constructor's loop `entryMap[e.word] = e` over the flattened entries builds exactly the index `WordIndex` |
| DeckStore.WordIndexIsLastEntry | src/renderer/store.ts:69-73 | The index has a key for exactly the words of the flattened list. Each key maps to the last entry with that word |
| DeckStore.Deck.constructor | src/renderer/store.ts:61-74 | The fields hold the arguments; entries, attempts and scores default to empty. The index is built over all flattened entries |
| DeckStore.Deck.GetScore | src/renderer/store.ts:92-94 | The word's score, or nothing when it has none |
| DeckStore.Deck.SetScore | src/renderer/store.ts:96-98 | The word now has the new score. Every other word keeps its own, and no other field changes |
| DeckStore.Deck.AddAttempt | src/renderer/store.ts:100-102 | Appends one attempt at the end; earlier attempts and the other fields are unchanged |
| Listeners.IndexOf | src/renderer/store-base.ts:15 | −1 exactly when the listener is absent. Otherwise the first index holding it |
| Listeners.SpliceStart | src/renderer/store-base.ts:15 | A negative start counts from the end, and the start is clamped to `0..length` |
| Listeners.SpliceOne | src/renderer/store-base.ts:15 | `splice(start, 1)` removes the element at the clamped start, when there is one |
| Listeners.UnsubscribeRemovesOne | src/renderer/store-base.ts:14-16 | Unsubscribing a present listener removes exactly its first occurrence. An absent one removes the last listener, and an empty list stays empty |
| Listeners.UnsubscribeOnce | src/renderer/store-base.ts:14-16 | A listener subscribed once is gone after unsubscribing |
| Listeners.StoreBase.constructor | src/renderer/store-base.ts:2-7 | The state is the initial one and there are no listeners |
| Listeners.StoreBase.Subscribe | src/renderer/store-base.ts:9-12 | Appends the listener; the state is unchanged |
| Listeners.StoreBase.Unsubscribe | src/renderer/store-base.ts:14-16 | The listener list becomes `splice(indexOf(listener), 1)` of the old list; the state is unchanged |
| Listeners.StoreBase.SetState | src/renderer/store-base.ts:18-24 | Replaces the state, then notifies every listener once, in list order. The list is unchanged |

## Left out

- File and IPC I/O, `JSON.parse`/`JSON.stringify`, the `Store` class, `toJSON`, the async loaders and savers of the model, the kdml/xml conversion and the UI: they are plumbing around the core.
- The indented-text parser `tspt` that builds the word-list tree is not part of this model. Its output is taken as a `Node(value, children)` tree.
- Kyoka observables are plain fields; their change broadcasts are not modelled.
- The attempt's `uuidv4()` id is not modelled, because it is random and nothing reads it.
- Dates are integer milliseconds with days of fixed length. Local time zones and daylight-saving changes of `setDate`/`setHours` are not modelled.
- Floating point: grades, qualities and ease factors are exact reals, so `Math.round` of an interval can differ from the JavaScript result at exact halves.
- `Math.random` is replaced by explicit draws. The model states what any sequence of draws gives, not the distribution.
- DeckModel.Model.GradeAttempt: the model requires a session with a non-empty queue when the grade is accepted. The code would record an attempt for an `undefined` id and throw on a missing session. A rejected grade returns `false` instead of throwing `Error('Out of bound')`.
- DeckModel.Model.StartAttempt, DeckModel.Model.AnswerAttempt and DeckModel.Model.Next require a session. The code dereferences `currentSession` with `!` and throws without one.
- Utils.SelectRandom and DeckModel.SelectRandomly take a natural `count`/`max`. A negative or fractional count, on which `length = count` throws a `RangeError`, is not modelled.
- Utils.Range takes integers; non-integer bounds are not modelled.
- DeckStore.Deck.constructor: the default creation time `new Date()` is the clock, so the caller always passes `createdAt`.
- Deck attempts are the model's `Attempt` records; scores are keyed by word as in the code. Writing to the special key `__proto__` of a plain object is not modelled.
- DeckStore.Deck.GetScore: in the code `scores` is a plain object, so a word without its own score that names a key every object inherits (`constructor`, `__proto__`, `toString`, …) reads the inherited member. The model's scores are a map without a prototype chain and return no score for such a word.
- Listeners.StoreBase.SetState: listeners are identifiers, and calling one is recorded in the returned trace. A listener that subscribes or unsubscribes while being notified is not modelled.
- `console.log` in `subscribe` is left out.
- Behaviour of the code that the model keeps as written:
  - `initializeSession` takes at most 10 New entries and nothing else; when there are no Review and no New entries the queue is empty.
  - The result of `queue.slice(0, 10)` is discarded, so the queue is not cut.
  - The step of an attempt is computed at grading time.
  - The due date comes from the last attempt's question time whatever that attempt's step was, so a Done grade still moves the due date.
