# MessagesBoard, modelled in Dafny

MessagesBoard is a minimal message board. A composer page posts a short text
message, optionally with one image, to the recipient configured by
`VITE_DEFAULT_RECIPIENT`, or `default` when that is unset. A reader page shows
the messages addressed to `default` one at a time, newest first, and moves
between them with buttons or horizontal swipes. The reader's recipient is
fixed (apps/web/src/ReadMessages.jsx:8, `setRecipient` is never called), so
when `VITE_DEFAULT_RECIPIENT` names another recipient the reader never shows
what the composer posts. A small Express service stores the messages
in one MongoDB collection and serves them.

This project models three parts of it:

- `MessageService` (`message_service.dfy`) models the service in
  `apps/server/index.js`. `MessageStore` is a class whose fields are the
  collection's records, a fresh-id counter standing for ObjectId generation, a
  logical clock standing for `new Date()` and the "collection handle assigned"
  flag. Its methods are the POST, GET and health handlers and the startup
  connect. The validation predicate and the filter-then-sort query are pure
  functions over the records.
- `ReadMessages` (`read_messages.dfy`) models `apps/web/src/ReadMessages.jsx`.
  `Reader` is a class over the `messages`, `current`, `touchStart` and
  `touchEnd` state cells. The swipe classifier, the button and counter
  expressions and `getDynamicFontSize` are pure functions. Font sizes are
  integer hundredths of a rem.
- `PostMessage` (`post_message.dfy`) models `apps/web/src/PostMessage.jsx`.
  `Composer` is a class over the form's state cells. `Apply` gives each
  handler's effect on the form, and a lemma about a sequence of handler runs
  follows `RunForm`.
- `Json` (`json.dfy`) holds JavaScript values as the code inspects them: `!v`
  (truthiness), `v.length` and decimal printing.

Each class method is proved against a pure specification. A store method
states its new records, counter and clock. Each reader or composer method
states `Nav()` or `State()` after the call as `Step` or `Apply` of the state
before it. The lemmas prove what the code promises about those functions.

Requests and their outcomes are parameters:

- a storage failure is `storageError`;
- the time since the previous request is `elapsed`;
- the fetch outcome is a `PostOutcome`;
- a picked file's data URL is an `Option<string>`.

Two facts about the service code shape the model:

- The query sorts with `sort({ created_at: -1 })` (apps/server/index.js:103),
  which fixes no order among equal timestamps. So `IsListing` allows any
  order among records with equal `created_at`.
- `cors()` is called with no options (apps/server/index.js:21). CORS is not
  modelled.

## Model

| member | source | states |
|---|---|---|
| `MessageService.Matches` | apps/server/index.js:99-102 | the query selects exactly the stored records whose recipient equals the path parameter as a string, with no normalisation |
| `MessageService.SortNewestFirst` | apps/server/index.js:103 | the sorted result is newest first (`created_at` non-increasing) and is a permutation of its input |
| `MessageService.MessageStore.constructor` | apps/server/index.js:28 | at start the collection handle is unassigned, and the store is empty with counter and clock at 0 |
| `MessageService.MessageStore.Connect` | apps/server/index.js:39-62 | the handle is assigned and the server listens only when both connect and ping succeed; otherwise the process exits with status 1 and the handle stays unassigned |
| `MessageService.MessageStore.Submit` | apps/server/index.js:79-96 | a falsy recipient or content gives 400 `Recipient and content are required.` and writes nothing; a storage failure gives 500 with its message, writes nothing and returns no id; otherwise exactly one record with the given fields and a server-assigned `created_at` is appended and its previously unseen id is returned; every stored record keeps a truthy recipient and content (`Valid`) |
| `MessageService.MessageStore.List` | apps/server/index.js:98-109 | with the handle set and no storage failure, the answer is 200 with a listing (every matching record once, newest first); a storage failure gives 500 with its message; the store is not modified |
| `MessageService.MessageStore.Health` | apps/server/index.js:112-116 | always 200 with status `ok`; database is `connected` exactly when the handle is assigned, `disconnected` otherwise |
| `MessageService.ListingIsExactlyMatches` | apps/server/index.js:99-102 | a listing holds exactly the stored records addressed to the recipient, each once |
| `MessageService.ListingIsolatesRecipients` | apps/server/index.js:99-102 | a message for one recipient never appears in another recipient's listing |
| `MessageService.UnknownRecipientListsNothing` | apps/server/index.js:98-105 | a recipient with no records gets the empty list |
| `MessageService.MatchesAppend` | apps/server/index.js:99-102 | selecting from concatenated records gives the concatenation of the two selections |
| `MessageService.InsertLeavesOtherListings` | apps/server/index.js:85-104 | an insert for one recipient leaves every other recipient's possible listings unchanged |
| `MessageService.InsertedRecordIsListed` | apps/server/index.js:85-104 | a record a successful POST appends appears in every later listing for its recipient |
| `MessageService.ListingsAgree` | apps/server/index.js:98-105 | repeated reads with no write between them return the same records with the same sequence of timestamps |
| `MessageService.ListingUniqueForDistinctTimes` | apps/server/index.js:98-105 | when the recipient's records have distinct timestamps, repeated reads return identical sequences |
| `MessageService.NewestFirstScenario` | apps/server/index.js:103 | three records for one recipient stamped t1 < t2 < t3 are listed as t3, t2, t1 |
| `Json.Length` | apps/web/src/ReadMessages.jsx:84 | among the modelled values (no arrays, no objects with a `length` key), `.length` is defined exactly for string content and is its length |
| `ReadMessages.PrevIndex` | apps/web/src/ReadMessages.jsx:32-40 | previous decrements `current` exactly when it is above 0 |
| `ReadMessages.NextIndex` | apps/web/src/ReadMessages.jsx:42-50 | next increments `current` exactly when it is below `messages.length - 1` |
| `ReadMessages.ClassifySwipe` | apps/web/src/ReadMessages.jsx:62-75 | a left swipe (next) exactly when both coordinates are set and non-zero and `touchStart - touchEnd > 50`; a right swipe (previous) exactly when that distance is below -50 |
| `ReadMessages.Reader.constructor` | apps/web/src/ReadMessages.jsx:7-15 | mount: empty list, `current` 0, no touch recorded |
| `ReadMessages.Reader.Load` | apps/web/src/ReadMessages.jsx:23-30 | the fetched list replaces `messages` and leaves the cursor and touch cells alone; loading into the empty list keeps the cursor invariant |
| `ReadMessages.Reader.HandlePrev` | apps/web/src/ReadMessages.jsx:32-40 | the new navigation state is `Step(PrevClicked)` of the old one, and the cursor stays in range |
| `ReadMessages.Reader.HandleNext` | apps/web/src/ReadMessages.jsx:42-50 | the new navigation state is `Step(NextClicked)` of the old one, and the cursor stays in range |
| `ReadMessages.Reader.OnTouchStart` | apps/web/src/ReadMessages.jsx:53-56 | records the start coordinate and resets `touchEnd` to null |
| `ReadMessages.Reader.OnTouchMove` | apps/web/src/ReadMessages.jsx:58-60 | records the current coordinate as `touchEnd` |
| `ReadMessages.Reader.OnTouchEnd` | apps/web/src/ReadMessages.jsx:62-75 | the new navigation state is `Step(TouchEnded)` of the old one: next on a left swipe, previous on a right swipe, nothing otherwise |
| `ReadMessages.Reader.Displayed` | apps/web/src/ReadMessages.jsx:77 | `messages[current]` is defined exactly when the list is non-empty |
| `ReadMessages.Reader.FontSizeNow` | apps/web/src/ReadMessages.jsx:80-82 | with no message, or a message without content, the size is 2 / 2.5 / 3 rem |
| `ReadMessages.StepsKeepCursorInRange` | apps/web/src/ReadMessages.jsx:32-50 | previous and next keep `0 <= current < messages.length` on a non-empty list and keep `current` at 0 on an empty one |
| `ReadMessages.StepKeepsCursorInRange` | apps/web/src/ReadMessages.jsx:32-75 | every click and touch handler keeps the cursor invariant |
| `ReadMessages.RunKeepsCursorInRange` | apps/web/src/ReadMessages.jsx:32-75 | any sequence of clicks and touches keeps the cursor invariant |
| `ReadMessages.SwipeTrichotomy` | apps/web/src/ReadMessages.jsx:62-75 | with both coordinates set, exactly one of next (distance > 50), previous (distance < -50) or nothing (`|distance| <= 50`) happens |
| `ReadMessages.UnsetTouchIsIgnored` | apps/web/src/ReadMessages.jsx:63 | a null or zero coordinate makes touch end change nothing |
| `ReadMessages.TapNeverNavigates` | apps/web/src/ReadMessages.jsx:53-63 | a touch start followed by touch end with no move never navigates, whatever swipe came before |
| `ReadMessages.ButtonsMatchGuards` | apps/web/src/ReadMessages.jsx:118-146 | prev is disabled exactly when its handler would do nothing; on a non-empty list the same holds for next |
| `ReadMessages.EmptyListNextEnabledButInert` | apps/web/src/ReadMessages.jsx:141 | on an empty list the next button is enabled (`0 === -1` is false) although its handler does nothing |
| `ReadMessages.CounterShowsPosition` | apps/web/src/ReadMessages.jsx:168 | on a non-empty list the counter shows a position between 1 and `messages.length` |
| `ReadMessages.EmptyListCounter` | apps/web/src/ReadMessages.jsx:152-170 | the counter is rendered on an empty list as well, and then reads `1 / 0` |
| `ReadMessages.FontNonIncreasing` | apps/web/src/ReadMessages.jsx:80-100 | longer content never gets a larger font, in either image case |
| `ReadMessages.ImageNeverLarger` | apps/web/src/ReadMessages.jsx:86-99 | the size with an image never exceeds the size without one for the same length, and no tier exceeds the no-content size |
| `ReadMessages.FontStepsAtCuts` | apps/web/src/ReadMessages.jsx:86-99 | the size changes exactly at lengths 50/100/150 with an image (four tiers) and 50/100/150/200 without (five tiers) |
| `ReadMessages.NonStringContentSmallest` | apps/web/src/ReadMessages.jsx:84-99 | in `getDynamicFontSize`, truthy content with an undefined length (a number or a boolean) fails every `<` test and gets the last tier, which is no larger than any other |
| `ReadMessages.FontDependsOnLengthAndImage` | apps/web/src/ReadMessages.jsx:80-84 | the size depends only on the content's truthiness and length and on the image's truthiness |
| `PostMessage.MaxCharacters` | apps/web/src/PostMessage.jsx:9 | the cap is 250 when `parseInt` gives NaN or 0, and the parsed value otherwise; it is never 0 |
| `PostMessage.DefaultRecipient` | apps/web/src/PostMessage.jsx:10 | the recipient is the configured one when that is non-empty, and `default` otherwise; it is never empty |
| `PostMessage.Composer.constructor` | apps/web/src/PostMessage.jsx:13-19 | mount: empty message, no image, picker and toast closed, severity `success` |
| `PostMessage.Composer.OnChange` | apps/web/src/PostMessage.jsx:176-180 | the form after a typed edit is `Apply(Typed(value))` of the form before it |
| `PostMessage.Composer.HandleEmojiButtonClick` | apps/web/src/PostMessage.jsx:21-23 | opens the emoji picker and changes nothing else |
| `PostMessage.Composer.HandleCloseEmojiPicker` | apps/web/src/PostMessage.jsx:24-26 | closes the emoji picker and changes nothing else |
| `PostMessage.Composer.HandleEmojiSelect` | apps/web/src/PostMessage.jsx:27-30 | the message becomes `message + emoji` with no length check, and the picker closes |
| `PostMessage.Composer.HandleImageChange` | apps/web/src/PostMessage.jsx:33-42 | a chosen file's data URL becomes the image; choosing no file changes nothing |
| `PostMessage.Composer.RemoveImage` | apps/web/src/PostMessage.jsx:215 | Remove sets the image to null |
| `PostMessage.Composer.HandlePost` | apps/web/src/PostMessage.jsx:48-88 | an empty message sends nothing and changes nothing; otherwise it sends `{recipient, content, image}` and the form becomes `Apply(Posted(outcome))` |
| `PostMessage.Composer.HandleCloseToast` | apps/web/src/PostMessage.jsx:90-96 | the form after a close is `Apply(ToastClosed(reason))` of the form before it |
| `PostMessage.TypedEditGate` | apps/web/src/PostMessage.jsx:176-180 | a typed value is taken exactly when its length is at most `MAX_CHARACTERS`; a longer one leaves the form unchanged |
| `PostMessage.RemainingCharsMeaning` | apps/web/src/PostMessage.jsx:45 | `remainingChars` plus the message length is the cap; it is not negative while the message is within the cap |
| `PostMessage.LengthWarningMeaning` | apps/web/src/PostMessage.jsx:183 | the helper text shows as an error exactly when fewer than 20 characters remain |
| `PostMessage.StepKeepsCap` | apps/web/src/PostMessage.jsx:176-180 | every handler except emoji selection keeps the message within the cap |
| `PostMessage.CapHeldWithoutEmoji` | apps/web/src/PostMessage.jsx:176-180 | any session without emoji selection keeps the message within the cap |
| `PostMessage.EmojiOverflowsCap` | apps/web/src/PostMessage.jsx:27-30 | selecting an emoji at the cap yields a message longer than the cap and a negative `remainingChars` |
| `PostMessage.IntendedKeepsCap` | apps/web/src/PostMessage.jsx:27-30 | with emoji selection gated like a typed edit, every session keeps the message within the cap |
| `PostMessage.PostDisabledMeansNoOp` | apps/web/src/PostMessage.jsx:49 | the post button is disabled (line 234) exactly when `handlePost` would do nothing |
| `PostMessage.PostOutcomeToast` | apps/web/src/PostMessage.jsx:59-87 | after a post attempt the message is empty, the image is null and the toast is open; the severity is `success` exactly when the response was ok, and `error` on a non-ok response or a thrown error |
| `PostMessage.StatusShownWithoutMessageField` | apps/web/src/PostMessage.jsx:59-62 | a non-ok response whose body has no `message` field shows `Error: <status>` |
| `Json.DecimalString` | apps/web/src/PostMessage.jsx:61 | `${response.status}` prints decimal digits with no leading zero that denote exactly the status (`DigitsValue(s) == n`) |
| `PostMessage.ImageGuards` | apps/web/src/PostMessage.jsx:138-145 | image selection is disabled once an image is present and enabled again after Remove |
| `PostMessage.ToastCloseRule` | apps/web/src/PostMessage.jsx:90-96 | a click-away close leaves `openToast` unchanged; any other close sets it to false; nothing else changes |
| `PostMessage.SentSubmissionAccepted` | apps/web/src/PostMessage.jsx:52-56 | every submission the composer sends passes the service's validation |

## Findings

| source | as written | input that shows it | evidently intended | confidence | as-written member | corrected member |
|---|---|---|---|---|---|---|
| apps/web/src/PostMessage.jsx:27-30 | `handleEmojiSelect` appends the emoji without the `MAX_CHARACTERS` check that typed edits get | a 250-character message, then selecting any emoji: the message grows past 250 and `remainingChars` goes negative | emoji insertion obeys the same length cap as typing | medium; not executed | `PostMessage.EmojiOverflowsCap` | `PostMessage.IntendedKeepsCap` |

The `Composer` class keeps the handler as the code has it (`Apply`). The
corrected handler is `ApplyIntended`, and `RunIntended` runs it over a
session. `IntendedKeepsCap` proves the cap for every session under the
corrected handler.

## Left out

- Express and `cors` middleware, the unused `corsOptions` and the JSON body-size limit (apps/server/index.js:14-26): framework configuration. Oversized bodies never reach the handler.
- MongoDB client construction, `client.close`, the SIGINT handler and `process.exit` (apps/server/index.js:31-77): foreign I/O and process lifecycle. Only the handle flag and the exit status of a failed startup are modelled.
- ObjectId values and real timestamps: a fresh-id counter and a logical clock stand in for them. The clock advances by the `elapsed` parameter, which may be 0, so timestamp ties are possible.
- The collection starts empty and only this service writes to it. Documents written by other clients are not modelled.
- A failing `insertOne` is modelled as writing nothing. An insert that succeeds at the database but reports failure is not modelled.
- MessageService.MessageStore.List: promises no order among records with equal `created_at`, because the query fixes none. Repeated reads are shown to agree on records and on timestamp order, and to be identical when timestamps are distinct.
- JavaScript values: numbers are integers, so NaN and fractions are not modelled. Each `char` of a string stands for one UTF-16 code unit, which is what `.length` counts.
- Array-valued fields are outside the model: `Obj` stands for a non-array object without a `length` key. POST accepts an array as a truthy `recipient` or `content` (apps/server/index.js:81). MongoDB's `find({ recipient })` (apps/server/index.js:101-102) matches an array field element by element, so such a record would be listed under each element's recipient. An array's `.length` is also defined (apps/web/src/ReadMessages.jsx:84). `Matches`, `ListingIsolatesRecipients` and the font tiers are therefore proved for string values only.
- `fetch` calls are modelled as follows. The reader's list fetch is the `Load` step. Its `/health` fetch is ignored by the code and not modelled. The composer's request is a `PostOutcome` parameter.
- `FileReader` encoding is left out: the data URL is a parameter. The emoji picker component is left out: the emoji is a parameter.
- The 300 ms `setTimeout` and the `fade` flag, which is false only during that delay: each handler is one atomic step. For the same reason, edits typed while a post request is in flight are not modelled.
- PostMessage.Composer.HandlePost: is one atomic step, so the model does not capture a second click while the request is in flight. `handlePost` clears `message` only after `await fetch` (apps/web/src/PostMessage.jsx:50-69, 86), and the button stays enabled meanwhile (line 234). A second click then sends the same message again. In the model the first `HandlePost` has already cleared the message, which is why `PostDisabledMeansNoOp` holds.
- ReadMessages.Reader.HandleNext: is atomic, so the model does not capture the stale `current` that its `setTimeout` closure captures (apps/web/src/ReadMessages.jsx:45-46). Two Next clicks within 300 ms advance once in the component, while `Run` advances twice.
- ReadMessages.Reader.HandlePrev: is atomic, so the model does not capture the stale `current` that its `setTimeout` closure captures (apps/web/src/ReadMessages.jsx:35-36). Two Previous clicks within 300 ms step back once in the component, while `Run` steps back twice.
- Json.Length: objects with a `length` key are not modelled. POST stores such an object as `content` (apps/server/index.js:81), and `getDynamicFontSize` would read its `length` key (apps/web/src/ReadMessages.jsx:84). Any object as `content` also makes the render of `{msg?.content}` throw (apps/web/src/ReadMessages.jsx:268), so the reader shows no font tier for it. `NonStringContentSmallest` is therefore a statement about `getDynamicFontSize` alone.
- ReadMessages.Reader.Load: takes a list of records only. The component stores whatever GET returns (apps/web/src/ReadMessages.jsx:27-29), including the 500 body `{error: …}` (apps/server/index.js:107). Then `messages.length` is undefined, the next button is enabled (`0 === NaN` is false), the counter reads `1 / ` and navigation does nothing. That error path is not modelled.
- ReadMessages.Reader.Load: keeps the cursor invariant only when loading into an empty list. That is the only load the component performs, since its recipient never changes.
- `parseInt` itself: `MaxCharacters` takes its result as a parameter.
- All JSX layout, MUI styling and responsive `sx` values other than the font tiers.
- apps/web/src/App.jsx (static routes), apps/web/src/theme.js (palette) and apps/web/vite.config.js (build tooling): no logic.
