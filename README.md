# learn-assistant: knowledge store, review scheduler and chat stream reader

This project is a Dafny model of the logic at the core of the learn-assistant iOS app.

- **The on-device knowledge store** (`LocalStorage`, class `LocalStorageService`). It holds two
  collections: knowledge points and review schedules.
  - Points can be created, updated, deleted (with cascade deletion of their schedules) and
    listed newest first, in pages.
  - A point put in the review plan gets a ladder of four review schedules. They fall 1, 7, 16 and
    35 days after the start of the day the point entered the plan.
  - "Today's reviews" are the pending schedules dated before the start of tomorrow, earliest
    first. They are handed out one at a time, together with their total.
  - A review is completed by stamping it.
  - The store also gives statistics, and a backup export with an all-or-nothing import.
  - Every operation of the app's service loads a collection, changes it and saves it back. Here
    the two collections are `seq` fields of the class, and a save is an assignment.
- **The review session** (`ReviewSession`, class `ReviewViewModel`): a cursor over the loaded due
  reviews. It also tracks the answer-visibility flag and the recall text.
- **The knowledge list** (`KnowledgeList`, class `KnowledgeViewModel`): incremental loading in
  pages of 20, using `offset` and `hasMore`. It also applies the in-memory edits that follow a
  creation, an update or a deletion.
- **Display projections** (`Models`): stored records copied into the shapes the views display. A
  schedule is joined to its parent point, with empty question and answer when there is none.
  The memberwise initialiser of the displayed knowledge point is the datatype constructor
  `Models.KnowledgePoint(...)` itself.
- **The Server-Sent-Events reader of the chat client** (`ServerSentEvents`).
  - The response body is buffered and split at each blank line (`"\n\n"`).
  - Each complete frame is handled line by line, and the incomplete tail is kept.
  - `data: ` lines carry JSON events, dispatched to the content or sources callback by their
    type. A `[DONE]` payload ends the stream.
  - Whatever is left in the buffer at the end is handled the same way.
  - The main theorem, `ReadStream`'s postcondition, says the callbacks of this frame-by-frame
    reading are exactly those of handling every line of the whole body in order until
    `[DONE]`.

`Sequences` holds the collection operations the Swift standard library supplies:

- `sorted(by:)`, modelled as a stable insertion sort;
- `filter` and `removeAll(where:)`;
- `firstIndex(where:)`.

`Wrappers` holds `Option` and `Outcome`. An `Outcome` is the success value or the error message of
a remote call.

The outside world enters as parameters:

- the clock reading `now`, as an integer count of seconds;
- freshly generated identifiers, with the precondition that they are fresh;
- the outcome of each remote call made by a view model, and, where the call's request is
  modelled, the outcome of the access-token fetch before it;
- the JSON decoder of the stream reader (`decode`), which gives `None` for a payload that does not
  decode.

In these places the model follows what the code does:

- `completeReview` has no guard against completing a review twice. A second completion stamps
  `completedAt` again and replaces the recall text, so completion is not idempotent.
- `createKnowledgePoint`, `updateKnowledgePoint` and `deleteKnowledgePoint` re-save the points in
  the newest-first order that `getAllKnowledgePoints` returns, not in their stored order.
- `importData` does not check that identifiers are unique. Import followed by reading back is
  therefore modelled as restoring exactly what was exported, not a deduplicated store.
- Swift does not document a tie-break for `sorted(by:)`. The model fixes one, a stable sort.
  Contracts about listings state sortedness and permutation, which hold for any tie-break.
- The stream reader splits at every `"\n\n"` the buffer contains. The buffer is checked after
  every appended character, so it never holds more than one delimiter, and that one is at its
  end. The reader's loop over "all parts but the last" therefore handles exactly one frame each
  time. `FrameCompleted` proves this.

## Model

| member | source | states |
|---|---|---|
| Sequences.SortByKey | learn-assistant/Services/LocalStorageService.swift:42 | the result is sorted by the key, is a permutation of the input and has its length |
| Sequences.Insert | learn-assistant/Services/LocalStorageService.swift:42 | inserting into a sorted sequence keeps it sorted and adds exactly the one element |
| Sequences.SortOfSorted | learn-assistant/Services/LocalStorageService.swift:42 | sorting an already sorted sequence returns it unchanged |
| Sequences.SortKeepsMembers | learn-assistant/Services/LocalStorageService.swift:42 | an element is in the sorted sequence exactly when it is in the input |
| Sequences.SortIdempotent | learn-assistant/Services/LocalStorageService.swift:42 | sorting twice gives the same result as sorting once |
| Sequences.Filter | learn-assistant/Services/LocalStorageService.swift:121 | the result is no longer than the input, every element satisfies the predicate, and each element occurs as often as in the input if it satisfies the predicate and not at all otherwise |
| Sequences.FilterMembers | learn-assistant/Services/LocalStorageService.swift:155 | an element is in the filtered sequence exactly when it is in the input and satisfies the predicate |
| Sequences.FilterAppend | learn-assistant/Services/LocalStorageService.swift:212 | filtering a concatenation is concatenating the filtered parts, so relative order is kept |
| Sequences.FilterAll | learn-assistant/Services/LocalStorageService.swift:212 | when every element satisfies the predicate, filtering changes nothing |
| Sequences.FilterNone | learn-assistant/Services/LocalStorageService.swift:155-156 | when no element satisfies the predicate, filtering gives the empty sequence |
| Sequences.FilterSorted | learn-assistant/Services/LocalStorageService.swift:121 | filtering a sorted sequence keeps it sorted |
| Sequences.FilterUpdate | learn-assistant/Services/LocalStorageService.swift:183 | replacing one element changes the number of matching elements only by what the old and the new element contribute |
| Sequences.FilterDisjoint | learn-assistant/Services/LocalStorageService.swift:250-253 | two mutually exclusive filters together keep at most as many elements as the input has |
| Sequences.FirstIndexOf | learn-assistant/Services/LocalStorageService.swift:88 | the result is absent exactly when no element has the id, and otherwise is the smallest index whose element has the id |
| LocalStorage.StartOfDay | learn-assistant/Services/LocalStorageService.swift:151 | the start of day is at or before the instant, less than a day before it, and on a day boundary |
| LocalStorage.StartOfTomorrow | learn-assistant/Services/LocalStorageService.swift:152 | the start of tomorrow is after the instant, at most one day after it, and on a day boundary |
| LocalStorage.DueQueue | learn-assistant/Services/LocalStorageService.swift:155-157 | the queue holds exactly the due rows, each as often as it occurs among them (a permutation of the due rows, so also every due row is in it and everything in it is a due stored row), in non-decreasing review-date order |
| LocalStorage.LocalStorageService.constructor | learn-assistant/Services/LocalStorageService.swift:20-22 | a new store holds no points and no schedules |
| LocalStorage.LocalStorageService.GetAllKnowledgePoints | learn-assistant/Services/LocalStorageService.swift:36-43 | the listing is a permutation of the stored points, ordered by creation time, newest first |
| LocalStorage.LocalStorageService.GetKnowledgePoints | learn-assistant/Services/LocalStorageService.swift:45-55 | the page is exactly the listing's elements from `offset` up to `offset + limit`, clipped to the listing; an offset at or past the end, or a non-positive limit, gives an empty page; a negative offset is accepted only with a non-positive limit, the one case where the app does not trap on it |
| LocalStorage.LocalStorageService.GetKnowledgePoint | learn-assistant/Services/LocalStorageService.swift:128-130 | the result is absent exactly when no stored point has the id, and otherwise is a stored point with that id created no earlier than any other point with that id |
| LocalStorage.LocalStorageService.GetTodayReviews | learn-assistant/Services/LocalStorageService.swift:149-167 | the total is the number of pending rows dated before tomorrow; at most one row is returned, none exactly when the offset is at or past the total, and that row is the offset-th of the due queue, so it is a stored, pending, not future-dated row |
| LocalStorage.LocalStorageService.GetStatistics | learn-assistant/Services/LocalStorageService.swift:244-261 | the total counts every point; the review-plan count is the number of stored points in the review plan, at most the total; the pending count equals `GetTodayReviews`'s total; the completed-today count is the number of completed rows whose completion time falls within today; pending and completed-today together do not exceed the number of schedules |
| LocalStorage.LocalStorageService.Export | learn-assistant/Services/LocalStorageService.swift:224-230 | the export holds a permutation of the points, newest first as the listing gives them, and exactly the stored schedules |
| LocalStorage.LocalStorageService.CreateKnowledgePoint | learn-assistant/Services/LocalStorageService.swift:57-81 | the new point has the fresh id and is stamped `now` for both creation and update; the points become the new point followed by the previous newest-first listing; the schedules gain the point's ladder, anchored at the start of today, if and only if the point is in the review plan, and are otherwise untouched |
| LocalStorage.LocalStorageService.UpdateKnowledgePoint | learn-assistant/Services/LocalStorageService.swift:83-117 | an unknown id gives `None` and changes nothing; otherwise the first listed point with the id is replaced by one that keeps its id and creation time, takes the new text, is stamped `now` and keeps its old flag when none is given; the schedules change only when the flag changes: switching on appends a ladder anchored at today, switching off removes all of the point's rows |
| LocalStorage.LocalStorageService.DeleteKnowledgePoint | learn-assistant/Services/LocalStorageService.swift:119-126 | the points become the newest-first listing without every point of that id, and the schedules lose exactly the rows of that point |
| LocalStorage.LocalStorageService.CompleteReview | learn-assistant/Services/LocalStorageService.swift:169-186 | an unknown id changes nothing; otherwise only the first row with the id changes, into its completed form stamped `now` with the recall text as given |
| LocalStorage.LocalStorageService.CreateReviewSchedules | learn-assistant/Services/LocalStorageService.swift:188-208 | the loop appends exactly the point's ladder anchored at the start of today, after the existing rows |
| LocalStorage.LocalStorageService.DeleteReviewSchedules | learn-assistant/Services/LocalStorageService.swift:210-214 | the schedules lose exactly the rows of that point, in order |
| LocalStorage.LocalStorageService.ImportData | learn-assistant/Services/LocalStorageService.swift:232-240 | import succeeds exactly when the payload decoded; success replaces both collections wholesale, and failure leaves both untouched |
| LocalStorage.LadderShape | learn-assistant/Services/LocalStorageService.swift:188-208 | a ladder has four rows for the point, with the given ids, numbered 1 to 4, pending and without completion data; row k is dated interval k whole days after the anchor, so the dates strictly increase from day 1 to day 35 |
| LocalStorage.LadderNotDueToday | learn-assistant/Services/LocalStorageService.swift:149-157 | appending a ladder created today leaves today's due rows exactly as they were |
| LocalStorage.FirstReviewDueNextDay | learn-assistant/Services/LocalStorageService.swift:192-198 | on the day after activation, exactly the first row of the ladder, review number 1, is due |
| LocalStorage.CompletionShrinksDueRows | learn-assistant/Services/LocalStorageService.swift:169-186 | completing a row lowers the due count by one if the row was due, and leaves it unchanged otherwise |
| LocalStorage.CompletedKeepsIdentity | learn-assistant/Services/LocalStorageService.swift:174-182 | a completed row keeps its id, point, number and date, has the completion time and recall text, and is never due |
| LocalStorage.CascadeDeleteRemovesExactlyThePoint | learn-assistant/Services/LocalStorageService.swift:210-214 | after a cascade delete no row of the point remains, and every other row keeps its number of occurrences |
| LocalStorage.DeleteKeepsListingOrder | learn-assistant/Services/LocalStorageService.swift:119-122 | the points saved by a deletion are already in newest-first order, so the next listing returns them as saved |
| LocalStorage.DeleteAbsentIsNoOp | learn-assistant/Services/LocalStorageService.swift:119-126 | deleting an id that no point or schedule has leaves the listing and the schedules as they were |
| LocalStorage.FirstMatchIsNewest | learn-assistant/Services/LocalStorageService.swift:128-130 | in a newest-first listing, the first point with an id was created no earlier than any other point with that id |
| LocalStorage.ImportOfExportRestores | learn-assistant/Services/LocalStorageService.swift:224-240 | importing the store's own export gives back the same listing and the same schedules |
| Models.KnowledgePointFrom | learn-assistant/Models/Models.swift:15-22 | id, question, answer, review-plan flag and both timestamps are copied unchanged |
| Models.ReviewScheduleFrom | learn-assistant/Models/Models.swift:51-63 | id, point id, number, date, completion flag and recall text are copied; the completion time is copied as the instant it records; question and answer come from the parent point, and are both empty without one |
| Models.JoinWithStore | learn-assistant/Models/Models.swift:51-63 | joining a schedule with the store's lookup of its parent never fails; question and answer are empty when no stored point has the id, and otherwise are those of a stored point with that id |
| ReviewSession.RecallTextToSend | learn-assistant/ViewModels/ReviewViewModel.swift:63 | nothing is sent exactly when the recall text is empty; otherwise the text is sent verbatim |
| ReviewSession.ReviewViewModel.constructor | learn-assistant/ViewModels/ReviewViewModel.swift:4-16 | a new session has no reviews, the cursor at 0, no error, not loading, the answer hidden and an empty recall text |
| ReviewSession.ReviewViewModel.CurrentReview | learn-assistant/ViewModels/ReviewViewModel.swift:18-21 | there is no current review exactly when the cursor is at the end, and otherwise it is the review under the cursor |
| ReviewSession.ReviewViewModel.HasMoreReviews | learn-assistant/ViewModels/ReviewViewModel.swift:23-25 | more reviews remain exactly when there is a current review and another one after it |
| ReviewSession.ReviewViewModel.CompletedCount | learn-assistant/ViewModels/ReviewViewModel.swift:27-29 | the completed count is the cursor position, lies between 0 and the total, and reaches the total exactly when there is no current review |
| ReviewSession.ReviewViewModel.TotalCount | learn-assistant/ViewModels/ReviewViewModel.swift:31-33 | the total is the number of loaded reviews |
| ReviewSession.ReviewViewModel.LoadReviews | learn-assistant/ViewModels/ReviewViewModel.swift:35-50 | a successful load replaces the reviews and restarts the session (cursor 0, answer hidden, recall text empty, no error); a failed load keeps the session and records the error; loading ends in every case, and the cursor stays within the list |
| ReviewSession.ReviewViewModel.CompleteCurrentReview | learn-assistant/ViewModels/ReviewViewModel.swift:52-80 | with no current review nothing is sent and nothing changes; a failed access-token fetch sends nothing, keeps the cursor, the answer and the text and records the error; otherwise the current review's id is sent with the token and the recall text (empty as none). Success advances the cursor by one, clearing the answer and the recall text when more remain; failure keeps the cursor, the answer and the text and records the error; the cursor never passes the end |
| ReviewSession.ReviewViewModel.ToggleAnswer | learn-assistant/ViewModels/ReviewViewModel.swift:82-84 | the answer's visibility flips, so toggling twice restores it; the cursor stays within the list |
| ReviewSession.ReviewViewModel.ResetReviews | learn-assistant/ViewModels/ReviewViewModel.swift:86-90 | the cursor returns to 0 with the answer hidden and the recall text empty, within the list; the reviews are untouched |
| KnowledgeList.KnowledgeViewModel.constructor | learn-assistant/ViewModels/KnowledgeViewModel.swift:4-16 | a new list is empty, with offset 0, more pages expected, no error and not loading |
| KnowledgeList.KnowledgeViewModel.LoadKnowledgePoints | learn-assistant/ViewModels/KnowledgeViewModel.swift:18-49 | a refresh first empties the list, rewinds the offset and expects more pages. A load starts exactly when more are expected and no load is under way; otherwise nothing changes. A started load requests a page, with the access token, limit 20 and the current offset, exactly when the token fetch succeeds. A fetched page is appended in order, advances the offset by its length and keeps `hasMore` exactly when the page is full; a failed token or page fetch keeps the list and the cursor and records that error; a started load always ends with loading false |
| KnowledgeList.KnowledgeViewModel.CreateKnowledgePoint | learn-assistant/ViewModels/KnowledgeViewModel.swift:51-61 | a created point goes to the head of the list; a failure changes nothing and is rethrown |
| KnowledgeList.KnowledgeViewModel.UpdateKnowledgePoint | learn-assistant/ViewModels/KnowledgeViewModel.swift:63-76 | after a successful update only the first listed point with the id is replaced, and a list without the id is unchanged; a failure changes nothing and is rethrown |
| KnowledgeList.KnowledgeViewModel.DeleteKnowledgePoint | learn-assistant/ViewModels/KnowledgeViewModel.swift:78-83 | after a successful deletion every listed point with the id is gone and the rest keep their order; a failure changes nothing and is rethrown |
| KnowledgeList.NextPageContinuesListing | learn-assistant/ViewModels/KnowledgeViewModel.swift:38-43 | the page the store returns at the list's offset continues the newest-first listing where the loaded prefix ends, and a page shorter than 20 means the listing is exhausted |
| ServerSentEvents.TrimStart | learn-assistant/Services/APIService.swift:302 | the result is a suffix of the input that does not start with a character of the class |
| ServerSentEvents.TrimEnd | learn-assistant/Services/APIService.swift:302 | the result is a prefix of the input that does not end with a character of the class |
| ServerSentEvents.TrimStartDropsOnlyClass | learn-assistant/Services/APIService.swift:302 | every character dropped from the start belongs to the class |
| ServerSentEvents.TrimEndDropsOnlyClass | learn-assistant/Services/APIService.swift:302 | every character dropped from the end belongs to the class |
| ServerSentEvents.Trim | learn-assistant/Services/APIService.swift:302 | the trimmed line is no longer than the line and neither starts nor ends with a character of the class |
| ServerSentEvents.TrimUntouched | learn-assistant/Services/APIService.swift:310 | a text that starts and ends outside the class is left as it is |
| ServerSentEvents.SplitOn | learn-assistant/Services/APIService.swift:296 | splitting always yields at least one part |
| ServerSentEvents.SplitLeftmost | learn-assistant/Services/APIService.swift:296-300 | splitting cuts at the leftmost occurrences of the separator: no piece holds it, no piece but the last runs into a separator starting inside it, a single piece is the whole text, and otherwise the text starts with the first piece and a separator |
| ServerSentEvents.SplitJoin | learn-assistant/Services/APIService.swift:296 | joining the parts with the separator gives back the text, so splitting loses nothing |
| ServerSentEvents.LinesAppend | learn-assistant/Services/APIService.swift:300 | the lines of two texts joined by a line break are the lines of the first followed by those of the second |
| ServerSentEvents.FrameEndAtTail | learn-assistant/Services/APIService.swift:289-294 | a buffer without a delimiter gains one only when it ended in a line break and the new character is another |
| ServerSentEvents.FrameCompleted | learn-assistant/Services/APIService.swift:293-299 | when the buffer first holds a delimiter, it is one frame followed by the delimiter, and splitting gives that frame and an empty last part |
| ServerSentEvents.FrameBeforeDelimiter | learn-assistant/Services/APIService.swift:293-296 | a delimiter-free buffer ending in a line break, followed by another line break, is a delimiter-free frame that does not end in a line break, followed by the delimiter |
| ServerSentEvents.SplitLastFrame | learn-assistant/Services/APIService.swift:296-299 | a delimiter-free frame followed by a delimiter splits into the frame and an empty tail |
| ServerSentEvents.Dispatch | learn-assistant/Services/APIService.swift:319-330 | a sources event with sources present fires the sources callback with them, a content event with content present fires the content callback with it, and nothing else fires anything |
| ServerSentEvents.InterpretLine | learn-assistant/Services/APIService.swift:300-307 | a line that, once trimmed of white space and line breaks, does not start with `data: ` is skipped; blank lines included |
| ServerSentEvents.InterpretPayload | learn-assistant/Services/APIService.swift:307-335 | a payload stops the stream exactly when it trims (white space only) to `[DONE]`; any other payload acts as its decoded event does |
| ServerSentEvents.EventAction | learn-assistant/Services/APIService.swift:315-335 | an event never stops the stream; it fires a callback exactly when it decoded and dispatches to one, and then fires that callback; an undecodable payload is skipped |
| ServerSentEvents.DataLineDispatchesPayload | learn-assistant/Services/APIService.swift:300-335 | a `data: ` line whose payload is not `[DONE]` acts as its payload's decoded event: the payload, without the six-character prefix, goes to the decoder, and the line fires the callback that event dispatches to, or nothing |
| ServerSentEvents.DataLinePayload | learn-assistant/Services/APIService.swift:306-307 | a trimmed `data: ` line is handled by what follows its prefix |
| ServerSentEvents.DoneLineStops | learn-assistant/Services/APIService.swift:306-312 | the line `data: [DONE]` stops the stream whatever the decoder says |
| ServerSentEvents.DataLineUntrimmed | learn-assistant/Services/APIService.swift:302-307 | a `data: ` line whose payload ends outside the white-space class survives trimming, has the data prefix, and what follows the prefix is its payload |
| ServerSentEvents.DoneMarkerUntrimmed | learn-assistant/Services/APIService.swift:310 | `[DONE]` is unchanged by trimming white space |
| ServerSentEvents.BlankLineSkipped | learn-assistant/Services/APIService.swift:302-303 | a line of white space and line breaks only does nothing |
| ServerSentEvents.EmptyLineSkipped | learn-assistant/Services/APIService.swift:303 | the empty line does nothing |
| ServerSentEvents.RunLinesAppend | learn-assistant/Services/APIService.swift:299-302 | handling two batches of lines one after the other is handling them together, so callbacks fire in input order |
| ServerSentEvents.NothingAfterDone | learn-assistant/Services/APIService.swift:310-312 | whatever follows a `data: [DONE]` line fires nothing: the body's effect is that of the text before it, followed by a stop |
| ServerSentEvents.FrameThenBreak | learn-assistant/Services/APIService.swift:296-300 | a frame followed by a line break adds only what the empty line after it does |
| ServerSentEvents.FrameKept | learn-assistant/Services/APIService.swift:299-347 | a frame that does not stop the stream, with its delimiter, extends the callbacks read so far by the frame's own callbacks |
| ServerSentEvents.FrameStops | learn-assistant/Services/APIService.swift:310-312 | a frame that stops the stream ends it: the body's callbacks are those read so far plus the frame's, whatever follows |
| ServerSentEvents.TailHandled | learn-assistant/Services/APIService.swift:351-383 | at the end of the body the buffered tail adds its own callbacks, and an empty tail adds none |
| ServerSentEvents.HandleLines | learn-assistant/Services/APIService.swift:300-337 | the loop over a frame's lines fires exactly the callbacks of handling them in order, and reports a stop exactly when a line stops the stream |
| ServerSentEvents.HandleFrames | learn-assistant/Services/APIService.swift:299-338 | the loop over the complete frames fires exactly the callbacks of handling each frame's lines in turn, and stops at the first frame that stops the stream |
| ServerSentEvents.FlushFrame | learn-assistant/Services/APIService.swift:293-347 | when the appended character completes a delimiter, the buffer splits into one frame and the delimiter; the frame's lines are handled with exactly that frame's effect, and the buffer is left empty |
| ServerSentEvents.StopInFrame | learn-assistant/Services/APIService.swift:310-312 | when a completed frame stops the stream, the callbacks read so far plus the frame's are all the body fires |
| ServerSentEvents.KeepFrame | learn-assistant/Services/APIService.swift:299-347 | when a completed frame does not stop the stream, the text read so far grows by the frame and its delimiter, and the callbacks fired still account for it |
| ServerSentEvents.BodyRead | learn-assistant/Services/APIService.swift:351-383 | once the whole body is read, the body's callbacks are those fired so far plus those of the buffered tail, or just those fired so far when the tail is empty |
| ServerSentEvents.ReadFrames | learn-assistant/Services/APIService.swift:287-383 | for any line handler that skips the empty line, the character-by-character reading loop fires exactly the callbacks of handling all of the body's lines in order up to the first stop |
| ServerSentEvents.ReadStream | learn-assistant/Services/APIService.swift:287-383 | reading the body in frames fires exactly the callbacks of handling all of its lines in order until `[DONE]`: no line is lost, repeated or reordered |

## Left out

- Persistence through `UserDefaults` and JSON encoding and decoding of the stored collections are
  not modelled. The collections are fields, and a save always succeeds. Unreadable stored data,
  which the app reads as an empty collection, is not modelled.
- The `hasLaunchedBefore` and `markAsLaunched` flag is not modelled. It is a single stored boolean.
- Calendar arithmetic is not modelled. A day is a fixed 86400 seconds starting at a multiple of
  86400, with no time zones and no daylight-saving changes. `isDateInToday` becomes a range check
  on that day.
- The clock: each operation takes one `now`. `createKnowledgePoint` and `updateKnowledgePoint`
  read the clock twice in the app, once for the point's timestamp and once, in
  `createReviewSchedules`, for its ladder's anchor. The model uses one reading for both; the two
  readings could straddle midnight.
- `UUID()`: identifiers are parameters with the precondition that they are fresh.
- ISO-8601 formatting of dates in the display projections: instants are kept as instants.
- `getAllReviewSchedules` is the `reviewSchedules` field itself and has no member of its own.
- LocalStorage.LocalStorageService.GetKnowledgePoints requires a non-negative offset whenever the
  limit is positive: the app then slices at the negative index and traps. With a non-positive limit
  any offset gives an empty page, as in the app.
- LocalStorage.LocalStorageService.GetTodayReviews takes the offset as a natural number: a negative
  offset makes the app index out of range.
- LocalStorage.LocalStorageService.GetKnowledgePoints does not model fixed-width `Int` overflow:
  the app traps when the clipped offset plus the limit exceeds `Int.max` (for example a limit of
  `Int.max` and an offset of 1 over a non-empty store), while the model returns the rest of the
  listing.
- `exportData`'s encoding to bytes is not modelled: `Export` gives the payload itself.
  `importData` receives the payload decoded, or `None` when decoding failed.
- Request building, HTTP status handling, `URLSession`, authentication (`AuthService`) and the
  remote service itself are not modelled. The view models receive each remote call's `Outcome`,
  and the request bodies (question, answer, flag) are not passed.
- The view models' `async` suspension points and `@MainActor` interleavings are not modelled. Each
  method runs from start to end at once, so `isLoading` is observed only before and after.
- The stream reader takes a sequence of characters, not bytes. Reassembly of UTF-8 sequences split
  across network reads and the `String(data:)` and `data(using:)` guards are not modelled. Swift's
  grapheme-cluster view of strings is not modelled either: a `"\r\n"` pair is two characters here.
- The stream reader's JSON decoding is the `decode` parameter, and its diagnostic print of decode
  failures is not modelled.
- `ChatViewModel`, the SwiftUI views and the app entry point are not modelled. They are
  presentation and task plumbing.
