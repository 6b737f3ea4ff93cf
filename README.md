# unacast comment pipeline, modelled in Dafny

unacast is a desktop streaming helper. It polls a BBS thread and gathers
Twitch and YouTube chat messages as comments. A queue feeds them to a
browser overlay and a chat window, with an optional speech synthesiser and a
translation window. This project models the main process's comment core
(`src/main/startServer.ts`) and the two renderer-side reducers:

- **Session** (`session.dfy`, module `Server`): the main process's
  globals are a `Session` class. Each loop step is one method:
  - the BBS poller `getResInterval`, with `checkAutoMoveThread` and
    `notifyThreadResLimit`;
  - the presenter `taskScheduler` and the translator
    `translateTaskScheduler`;
  - start, stop and apply-config.

  Every method is proved equal to a pure transition function on a `State`
  value, and the poller's, queue's and session generation's rules are
  lemmas about those functions. Whatever the session sends (to a window,
  the overlay or the settings store) is appended to an `events` trace.
  What the BBS fetch functions return is an input of the step.
- **Rendering** (`render.dfy`, module `Render`): the comment fragment
  `createDom`, the translation fragment `createTranslateDom`, the icon path
  rewrite, the translation pre-strip and the speech text of `sendDom`.
  `createDom` and `createTranslateDom` are methods that append step by
  step under the `isResNameShowed` flag, proved against fold-shaped
  specification functions.
- **Link-ification and image URLs** (`links.dfy`, module `Links`): the URL
  regex, the thumbnail regex and the `"http` mask/unmask trick are explicit
  scanners. They are proved against a reference tokenizer in which a
  `"http` is never wrapped.
- **Adapters** (`adapters.dfy`, module `Adapters`): the Twitch emote
  substitution and `createYoutubeComment`.
- **Reducers** (`renderer_reducer.dfy`, `dialog_reducer.dfy`): the
  renderer state reducer and the dialog merge reducer, with their frame,
  idempotence and initial-state properties.
- **Support**:
  - `strings.dfy`: JavaScript's `replace` with a string pattern (first
    occurrence only), with a global literal pattern, and with a lazy
    `open.*?close` pattern (`.` stops at line terminators); also `trim`
    and `join`.
  - `jsnumber.dfy`: `Number(str)`, truthiness and comparisons with `NaN`.
  - `comment.dfy`: the comment and configuration records.
  - `wrappers.dfy`: `Option`.

Several of the application's own details are modelled exactly as the code
has them:
- The cursor becomes the *last* kept item's number, not the largest.
- A first poll shows the whole result in the chat window, while an
  apply-config URL change broadcasts only the last response.
- The close-tag pattern `/<\\a>/` of `createDom` and of the translation
  strip removes the literal text `<\a>`, so `</a>` survives there. The
  speech text removes `</a>`.
- Deduplicating the queue compares numbers with `===`.
  - Two comments without a number count as equal, so a numberless BBS item
    is not queued while a Twitch or system comment is queued.
  - The check runs against the queue as it grows within the same loop.
- STOP does not change `serverId` and does not empty the translation
  queue.
- `server` and `aWss` exist only after the first START. Before it, STOP
  throws at `server.close()` and changes nothing. With overlay display
  (`dispType` 1), apply-config throws in `resetInitMessage`, whose
  `aWss.clients` is not guarded. The handler then ends after storing the
  configuration, without fetching a new thread.
- A Dafny character is a whole code point, while the regexes (no `u` flag)
  work on UTF-16 units. Only the `.` before a thumbnail extension is
  affected: it matches one unit, so a character above U+FFFF there (an
  emoji right before `jpg`) makes no thumbnail, and the model says the same.
- A YouTube message part with no text is rendered as an image. Its missing
  URL prints as `undefined`.

## Model

| member | source | states |
|---|---|---|
| `Server.Session.PollTick` | src/main/startServer.ts:480-545 | one poller step is `Poll` of the old state: wait while no URL is set, otherwise take in the responses, check auto-move, check the response limit; it goes on iff the flag is set and its id is the session's |
| `Server.Session.ReceiveResponses` | src/main/startServer.ts:485-535 | the responses part of a poll equals `Receive`; its for-loop is `QueueNew` |
| `Server.Session.QueueNew` | src/main/startServer.ts:522-527 | the de-duplicating loop leaves the queue equal to `Deduped` of the old queue and the items, nothing else changed |
| `Server.KeepNewer` | src/main/startServer.ts:506-509 | the later-poll filter keeps, in order, exactly the items that have no number or a number past the cursor |
| `Server.LaterPollQueuesNewItems` | src/main/startServer.ts:491-527 | on a poll with a truthy cursor `N`, queued entries stay in place; appended items are fetched items in fetch order, each without a number or numbered past `N`, none sharing a number with an entry before it |
| `Server.DedupedKeepsQueue` | src/main/startServer.ts:522-527 | de-duplication keeps every pre-existing queue entry in its place |
| `Server.DedupedNewNumbers` | src/main/startServer.ts:524 | an appended item's number differs from that of every entry before it |
| `Server.DedupedCovers` | src/main/startServer.ts:522-527 | after de-duplication every fetched item's number is in the queue |
| `Server.DedupedFromItems` | src/main/startServer.ts:522-527 | the appended items are a subsequence of the fetched items |
| `Server.CursorRule` | src/main/startServer.ts:511-535 | a kept last item with a number sets the cursor to that number; a non-empty result whose last item has no number leaves cursor and queue alone and ends with the `error!` status and the result in the chat window; configuration, translation queue and session never change |
| `Server.FirstPollShowsAll` | src/main/startServer.ts:514-520 | a successful first poll (falsy cursor) queues nothing and shows the whole fetch, a permutation of it, reversed iff not sorted ascending |
| `Server.FirstShownPermutes` | src/main/startServer.ts:514-520 | the first poll's display order is a permutation of the fetch: the fetch itself when sorted ascending, its reverse otherwise |
| `Server.WaitingPollIdles` | src/main/startServer.ts:484-489 | with no URL set in the current session a poll changes nothing and continues |
| `Server.FirstCandidate` | src/main/startServer.ts:572 | the result is the first thread with another URL and fewer than 1000 responses; none exactly when no thread qualifies |
| `Server.Session.CheckAutoMoveThread` | src/main/startServer.ts:563-587 | the thread check equals `AutoMove` of the old state (the corrected guard, see Findings) |
| `Server.AutoMoveRule` | src/main/startServer.ts:563-587 | no move unless enabled and the cursor is at least 1000; with a first candidate, exactly one system comment is queued, only the URL of the configuration changes, to the target's, the cursor becomes 0 and the configuration is saved; without one nothing changes |
| `Server.MovedThreadNotNotified` | src/main/startServer.ts:548-587 | after a move the response-limit notice is not sent in the same poll |
| `Server.Session.NotifyThreadResLimit` | src/main/startServer.ts:548-561 | the limit check equals `NotifyLimit` of the old state |
| `Server.NotifyRule` | src/main/startServer.ts:548-561 | exactly one notice goes to the chat window iff a positive limit is set and the cursor has reached it; a `NaN` cursor never notifies; nothing but the trace changes |
| `Server.GuardsAgreeOnNumbers` | src/main/startServer.ts:565 | for a numeric cursor the guard as written and the corrected guard agree |
| `Server.NaNCursorMovesThread` | src/main/startServer.ts:565 | the guard as written moves to another thread from a `NaN` cursor left by an error response; the corrected guard does not |
| `Server.Session.PresentTick` | src/main/startServer.ts:592-623 | one presenter step equals `Present`; it goes on iff the queue flag is set and its id is the session's |
| `Server.BatchRule` | src/main/startServer.ts:595-608 | batch mode empties the queue and broadcasts its former contents, a permutation reversed iff not sorted ascending; with translation on, the translation queue gains that same sequence |
| `Server.SingleRule` | src/main/startServer.ts:609-616 | single mode broadcasts and removes exactly the head; the rest stays in order and the head goes to the translation queue iff translation is on |
| `Server.PresentIdle` | src/main/startServer.ts:593 | an empty queue makes the presenter step a no-op |
| `Server.Session.TranslateTick` | src/main/startServer.ts:628-646 | one translator step equals `TranslateStep`; it goes on iff the queue flag is set and its id is the session's |
| `Server.TranslateRule` | src/main/startServer.ts:629-640 | a step removes exactly the head and never re-queues it; it sends nothing when the gate is closed or the translation is empty, the error notice when the translator fails, and otherwise one fragment holding the escaped translation |
| `Server.TranslateGateLanguages` | src/main/startServer.ts:633-639 | translation happens for target `ja` iff the text is not Japanese, always for `en`, never for another target |
| `Server.TranslateIdle` | src/main/startServer.ts:629 | an empty translation queue makes the step a no-op |
| `Server.Session.Start` | src/main/startServer.ts:82-237 | START clears both windows, resets cursor, queue and error counter, takes the new id and sets both flags; it launches poller and presenter, and the translator iff translation is on |
| `Server.Session.Stop` | src/main/startServer.ts:434-448 | STOP equals `StopState` of the old state: after a START it clears both flags and the comment queue, keeps the session id and the translation queue, and reports the BBS title and status; before the first START (`server` unset) nothing changes |
| `Server.Session.ApplyConfig` | src/main/startServer.ts:43-77 | apply-config equals `ApplyConfigState` of the old state, including the early end when the overlay reset throws before the first START |
| `Server.Session.SwitchThread` | src/main/startServer.ts:60-75 | the URL branch equals `NewThread` of the old state: the alert when the fetch is empty, else the last response's number as cursor, that response broadcast and the title sent |
| `Server.ApplyConfigRule` | src/main/startServer.ts:48-76 | the configuration is replaced and the queues are untouched; with overlay display before the first START the reset throws and nothing else happens; otherwise only a change to a non-empty URL fetches, an empty answer raises the alert and keeps the cursor, and else the cursor becomes the last response's number and that response alone is broadcast |
| `Server.PollKeepsGeneration` | src/main/startServer.ts:480-545 | a poll never changes the session id or the loop flags |
| `Server.QueueStepsKeepGeneration` | src/main/startServer.ts:592-646 | the presenter and translator steps never change the session id or the loop flags |
| `Server.StopEndsLoops` | src/main/startServer.ts:434-446 | after a START, STOP makes every loop stop at its next step whatever its id, keeps the id, empties the comment queue and keeps the translation queue; before the first START it changes nothing |
| `Server.RestartRetiresOldLoops` | src/main/startServer.ts:85-88 | after START with a new id, loops of the earlier id stop at their next step while the new id's loops go on |
| `Render.HeaderDom` | src/main/startServer.ts:692-727 | the header appends match `HeaderRow`, and the flag is true iff the icon, a shown number, name or date appeared |
| `Render.CreateDom` | src/main/startServer.ts:692-803 | `createDom` equals the fragment specification `CommentDom` |
| `Render.BreakRule` | src/main/startServer.ts:728-735 | (with image URLs kept) the fragment has `<br />` right after the header iff (`newLine` and something was shown) or (AA mode and the comment is AA) |
| `Render.FramedPrefix` | src/main/startServer.ts:737-760 | (with image URLs kept) the fragment begins with the header, the break and the link-ified body |
| `Render.NoThumbnails` | src/main/startServer.ts:762-796 | without thumbnails shown, or without image URLs, the fragment is the framed body and the closing tags |
| `Render.ThumbnailsListed` | src/main/startServer.ts:762-787 | when thumbnails are shown, the fragment holds an image tag for every image URL of the text, its source starting with `http` |
| `Render.AppendThumbnails` | src/main/startServer.ts:762-796 | the thumbnail block is appended iff thumbnails are shown and the text has image URLs, then the URL spans are hidden if asked |
| `Render.HideImageUrls` | src/main/startServer.ts:789-794 | the hiding loop removes, for each image URL in turn, the first remaining span of that URL |
| `Render.HideSpansShrinks` | src/main/startServer.ts:789-794 | hiding never lengthens the fragment |
| `Render.HideSpansAbsent` | src/main/startServer.ts:789-794 | a span not present is not removed: the fragment is unchanged |
| `Render.ImageTagsHold` | src/main/startServer.ts:776-785 | the joined thumbnail tags contain the tag of every URL |
| `Render.RewriteImgUrl` | src/main/startServer.ts:883 | only the icon path changes; it changes iff it starts with `.`, and the old path is a suffix of the new one |
| `Render.Doms` | src/main/startServer.ts:881-889 | a batch yields one fragment per comment, in order, each with the rewritten icon in the chat window |
| `Render.FragmentHolds` | src/main/startServer.ts:880-891 | the joined batch contains the fragment of each of its comments |
| `Render.FragmentSingle` | src/main/startServer.ts:889-890 | a batch of one comment is that comment's fragment |
| `Render.TranslateHeaderDom` | src/main/startServer.ts:906-939 | the translation header appends match the specification, and the flag ignores the icon |
| `Render.CreateTranslateDom` | src/main/startServer.ts:906-964 | `createTranslateDom` equals `TranslateDom` |
| `Render.TranslateBreakRule` | src/main/startServer.ts:941-945 | the translation fragment breaks after the header iff a number, name or date was shown |
| `Render.TranslateDomHolds` | src/main/startServer.ts:949-957 | the translation fragment holds both the translation and the original text |
| `Render.TranslationSource` | src/main/startServer.ts:972-979 | no `reg` URL match starts anywhere in the pre-stripped text, and it has neither leading nor trailing white space |
| `Render.TranslationSourcePlain` | src/main/startServer.ts:972-979 | a text without tags and without `ttp` is only trimmed |
| `Render.TranslateWindowDom` | src/main/startServer.ts:967-997 | a failed translation sends the error notice; an empty one sends nothing; otherwise the fragment holds the escaped translation and the prepared text |
| `Render.Speech` | src/main/startServer.ts:834-866 | nothing is read when reading is off or the batch is empty; the AA word is read for an AA last comment in AA mode; otherwise the last comment's spoken text |
| `Render.SpeechFlattened` | src/main/startServer.ts:846-848 | with flattening on, the text body holds no newline |
| `Render.SpeechAnnouncementOrder` | src/main/startServer.ts:850-858 | the response number is announced first, then the Twitch label, then the text |
| `Render.SpeechPlain` | src/main/startServer.ts:840-845 | a text without tags, unflattened, is read exactly as decoded |
| `Links.UrlLen` | src/main/startServer.ts:743 | a match of the URL pattern is made of URL characters, is maximal and starts with `ttp` or `http` |
| `Links.UrlLenNeedsTtp` | src/main/startServer.ts:743 | every URL match needs a `ttp` in the text |
| `Links.UrlLenMasked` | src/main/startServer.ts:745-746 | masking `"http` does not change the URL match at the start, and the match is copied unmasked |
| `Links.WrapMasked` | src/main/startServer.ts:745-746 | wrapping URLs in the masked text is the reference tokenizer, with the placeholder for `"http` |
| `Links.UnmaskReference` | src/main/startServer.ts:747 | unmasking turns that output into the reference tokenizer's output |
| `Links.LinkifyIsReference` | src/main/startServer.ts:742-747 | for any text without the placeholder's star, mask/wrap/unmask equals the reference tokenizer, which never wraps a `"http` |
| `Links.QuotedUrlKept` | src/main/startServer.ts:745-747 | an attribute's URL after `"http` is copied unchanged |
| `Links.PlainRunKept` | src/main/startServer.ts:742-747 | a quote-free, `ttp`-free run is copied unchanged |
| `Links.LinkifyWithoutTtp` | src/main/startServer.ts:742-747 | a body without `ttp` passes through link-ification unchanged |
| `Links.ImgLen` | src/main/startServer.ts:765 | a thumbnail match starts with `ttp` or `http` and ends in one UTF-16 unit (not a line terminator) followed by `jpg`, `png` or `gif` |
| `Links.ImgMatchShape` | src/main/startServer.ts:765-767 | every thumbnail match is an image URL |
| `Links.ImgUrls` | src/main/startServer.ts:765-767 | every listed URL is an image URL that occurs in the text, and a match at the start of the text is listed first |
| `Links.ImgUrlsSkip` | src/main/startServer.ts:765-767 | positions where no `imgreg` match starts add nothing to the list |
| `Links.ImgUrlsMatch` | src/main/startServer.ts:765-767 | a match at the start is listed first and the scan resumes right after it, so matches are listed in order without overlap |
| `Links.ImgUrlsEmpty` | src/main/startServer.ts:765-767 | the list is empty exactly when no match starts anywhere in the text |
| `Links.ThumbnailSourcesHttp` | src/main/startServer.ts:779-781 | every thumbnail source starts with `http`, a leading `ttp` being prefixed with `h` |
| `Links.RemoveUrlsWithoutTtp` | src/main/startServer.ts:978 | removing URLs leaves a text without `ttp` unchanged |
| `Links.RemoveUrlsClean` | src/main/startServer.ts:978 | after `replace(reg, '')` no URL match starts anywhere in the text |
| `Links.RemoveUrlsHead` | src/main/startServer.ts:978 | up to the first match the removal copies the text, and what follows the copy is a character outside the URL class or nothing |
| `Links.RemoveUrlsCleanHead` | src/main/startServer.ts:978 | where no match starts in the source, none starts in the result either |
| `Links.UrlLenPrefix` | src/main/startServer.ts:972 | a match at the start of a prefix is a match at the start of the whole text |
| `Links.NoUrlSlice` | src/main/startServer.ts:978-979 | a piece of a text without URL matches has none |
| `Links.TrimKeepsNoUrl` | src/main/startServer.ts:979 | trimming a text without URL matches leaves none |
| `Strings.ReplaceFirst` | src/main/startServer.ts:792 | a string-pattern `replace` replaces only the leftmost occurrence and keeps a string without one |
| `Strings.ReplaceAllAbsent` | src/main/startServer.ts:745 | a global literal replace keeps a string without the pattern |
| `Strings.ReplaceAllRoundTrip` | src/main/startServer.ts:745-747 | replacing a pattern by a marker absent from the text and back restores the text |
| `Strings.LazyClose` | src/main/startServer.ts:739 | a lazy `.*?` match ends at the first closing text, with no line terminator before it |
| `Strings.ReplaceLazyAbsent` | src/main/startServer.ts:739 | a lazy tag pattern whose opening never occurs keeps the text |
| `Strings.ReplaceLazyShrinks` | src/main/startServer.ts:974 | removing lazy tag matches never lengthens the text |
| `Strings.Trim` | src/main/startServer.ts:979 | `trim` leaves the text surrounded by white space only and with no white space at either end |
| `JsNumber.ToNumber` | src/main/startServer.ts:512 | `Number` of an empty string is 0, of a digit string its value, and `NaN` only for other text |
| `JsNumber.NumberRoundTrip` | src/main/startServer.ts:530 | the model's printing of a number (as in the `ok res=` status) is one that `ToNumber` reads back as the same number, so the printed form loses nothing |
| `Comments.SystemComment` | src/main/startServer.ts:575-580 | a system comment comes from `system`, carries the given text and has no number |
| `Adapters.TwitchComment` | src/main/startServer.ts:327-343 | a Twitch message becomes a comment with the escaped name and the escaped text in which each emote replaces the first remaining occurrence of its code |
| `Adapters.ReplaceEmotesAppend` | src/main/startServer.ts:333-341 | replacing a list of emotes is replacing a prefix, then the rest |
| `Adapters.ReplaceEmotesAbsent` | src/main/startServer.ts:333-341 | a text with none of the codes is kept |
| `Adapters.ReplaceOneEmote` | src/main/startServer.ts:335 | an emote replaces exactly its leftmost code, the text around it kept |
| `Adapters.YoutubeComment` | src/main/startServer.ts:385-402 | a YouTube item becomes a comment whose text is its parts' renderings in order and whose icon defaults to `''` |
| `Adapters.PartsTextAppend` | src/main/startServer.ts:391-399 | rendering a message is rendering its two halves one after the other |
| `Adapters.OneTagPerEmoji` | src/main/startServer.ts:391-399 | when escaping removes `<`, the rendered text has exactly one tag per image part |
| `RendererStore.InitialState` | src/renderer/reducer/renderer/renderer.ts:24-73 | the server is not running and every status line is `none` |
| `RendererStore.Renderer` | src/renderer/reducer/renderer/renderer.ts:78-87 | `updateConfig` replaces only the settings; `updateRunningState` sets only the running flag; any other action keeps the state |
| `RendererStore.RendererFrom` | src/renderer/reducer/renderer/renderer.ts:78 | without a state every action is applied to the initial state: the store's init call (any other action) yields the initial state, `updateConfig` the initial state with that configuration, `updateRunningState` the initial state with that flag; with a state it is `Renderer` |
| `RendererStore.RendererIdempotent` | src/renderer/reducer/renderer/renderer.ts:80-83 | dispatching an action twice equals dispatching it once |
| `RendererStore.UpdatesCommute` | src/renderer/reducer/renderer/renderer.ts:80-83 | a settings update and a running-state update commute |
| `RendererStore.LastConfigWins` | src/renderer/reducer/renderer/renderer.ts:80-81 | a later settings update overrides an earlier one |
| `DialogStore.InitialDialog` | src/renderer/reducer/renderer/dialog.ts:9-13 | the initial dialog is a closed alert with an empty message |
| `DialogStore.Merge` | src/renderer/reducer/renderer/dialog.ts:19 | each field present in the payload is overwritten, each absent one kept |
| `DialogStore.DialogReducer` | src/renderer/reducer/renderer/dialog.ts:16-23 | `updateDialog` merges its payload; any other action keeps the state |
| `DialogStore.DialogFrom` | src/renderer/reducer/renderer/dialog.ts:16 | without a state every action is applied to the initial dialog: `updateDialog` merges its payload into it, any other action yields it; with a state it is `DialogReducer` |
| `DialogStore.EmptyPatchKeeps` | src/renderer/reducer/renderer/dialog.ts:18-19 | an empty payload leaves the dialog unchanged |
| `DialogStore.FullPatchReplaces` | src/renderer/reducer/renderer/dialog.ts:18-19 | a payload with every field replaces the dialog |
| `DialogStore.UpdateIdempotent` | src/renderer/reducer/renderer/dialog.ts:18-19 | applying the same payload twice equals applying it once |
| `DialogStore.UpdatesCompose` | src/renderer/reducer/renderer/dialog.ts:18-19 | two updates in a row are one update with the union of the payloads, the later winning |

## Left out

- Network and I/O are represented by inputs and the `events` trace:
  - the BBS fetches (`getBbsResponse`, `threadUrlToBoardInfo`,
    `getThreadList`, in `./getRes`, which is not part of this model);
  - the translator `googletrans`;
  - the WebSocket broadcast, IPC and Electron windows.

  The fetch results are the step's inputs. Each fetch is assumed to query
  the URL and the cursor the step passes.
- Interleaving at `await` points is not modelled; each loop step is atomic.
  - In the single-item presenter the translation check reads the
    configuration after the awaited broadcast.
  - A poll's state can change while its fetch is in flight.
- Timing is left out: `sleep` intervals, the 10-second pause after the
  limit notice, and `minDisplayTime`.
- `playSe` / `playYomiko` (busy waits on acknowledgement flags, external
  TTS processes) and `Math.random` sound-effect choice are left out. The
  speech text itself is modelled (`Render.Speech`).
- `escapeHtml`, `unescapeHtml`, `judgeAaMessage` and `isNihongo` live in
  `./util`, which is not part of this model. They are function parameters.
  The AA flag is a predicate on the comment.
- `serverId = new Date().getTime()` is a parameter, `now`. Two starts in the
  same millisecond would share an id; the model just takes the value.
- The sound-effect path reload of apply-config (`findSeList`) and the
  live-chat clients (connection, event wiring, teardown statuses) are left
  out. Their pure normalisation is modelled in `Adapters`.
- `threadConnectionError` is only reset; its limit is never enforced in the
  code, and none is modelled.
- Response numbers are parsed as optionally signed decimal integers;
  `Number` of other numerals (hex, exponents, surrounding spaces) reads as `NaN`.
- `$` replacement patterns of JavaScript's `replace` are not interpreted.
  No replacement text in the core contains `$`, except user text inside an
  emote code, which is not the replacement.
- `Render.BreakRule`: stated only when image URLs are not hidden, because
  hiding may remove a span that straddles the header boundary.
- `Render.FramedPrefix`: stated only when image URLs are not hidden, for the
  same reason.
- `Render.ThumbnailsListed`: stated only when image URLs are not hidden.
- `Render.TranslationSource`: does not promise that no anchor or image tag
  survives. A replace pass does not rescan what it leaves, so removing one
  tag can join the halves of another (`<im<img x>g y>` leaves `<img y>`) and
  removing a URL can complete one (`<imghttp://x y>` leaves `<img y>`).
- `Server.Poll`: runs the corrected auto-move guard (`AutoMove`), not the
  code's. From a `NaN` cursor with `moveThread` on, the code moves to
  another thread and the model does not; see Findings.
- `Server.Session.CheckAutoMoveThread`: the same corrected guard. The
  code's guard is `Server.AutoMoveAsWritten`.
- `Server.Session.PollTick`: inherits the corrected guard from `Server.Poll`.
- `Links.LinkifyIsReference`: requires the text to hold no `★`, the
  placeholder's character. With a literal `★★★★http★★★★` in the text the
  original turns it into `"http` as well.
- `sendDomForTranslateWindow` assigns the rewritten icon path into the
  comment object in place. The model passes values, so the mutation's
  aliasing is not captured. The object is not used again afterwards.
- A `Partial<DialogType>` payload that carries a field explicitly set to
  `undefined` overwrites it with `undefined`. The model treats a field as
  present or absent only.
- The renderer state's settings type is generic. `RendererStore.Settings`
  holds the fields that the initial state spells out.
- The start validation of the renderer middleware (a non-empty URL and
  port) is not a precondition of `Start`. The session model handles an
  empty URL as the poller does.

## Findings

| source | as written | input that shows it | evidently intended | confidence | as-written member | corrected member |
|---|---|---|---|---|---|---|
| src/main/startServer.ts:565 | `if (threadNumber < 1000) return;` lets a `NaN` cursor through, because every comparison with `NaN` is false | apply-config switching, with `moveThread` on, to a URL whose fetch returns only the error message (no number): the cursor becomes `Number(undefined)`, i.e. `NaN`; a poll answered the same way keeps it; the check then moves to another thread of the board | move only once the cursor has reached 1000 (`threadNumber >= 1000`), as the notice text says | medium, not executed | `Server.NaNCursorMovesThread` (about `Server.AutoMoveAsWritten`) | `Server.AutoMoveRule` (about `Server.AutoMove`, which `Server.Session.CheckAutoMoveThread` and `Server.Poll` use) |
