# A verified model of the VoiceLink client core

VoiceLink is a push-to-talk voice chat with live translation. A participant
joins a room, presses and holds a button to record, and the recording is
transcribed and posted to the room. Every two seconds the page polls the
room and shows each message translated into the reader's language, with
translations cached per message. A small server endpoint lists the ads
shown beside the chat.

This project models four parts of that system in Dafny and proves what
each part promises:

- `audio_utils.dfy` (module `AudioUtils`) models the two fetch wrappers,
  `transcribeAudio` and `translateText`.
  - At most three requests are made.
  - A retry happens only after HTTP 429, with a capped exponential backoff
    plus jitter.
  - The error message comes from `parseErrorMessage`'s fallback chain.
  - Translation errors carry the last HTTP status.
  - The network is a sequence of answers (a response, or a rejected
    `fetch`) and `Math.random` is the jitters drawn, both passed as inputs. The loop is a method, `RequestWithRetry`,
    proved equal to the reference function `Call`. The throw after the loop
    is proved unreachable.
- `voice_controls.dfy` (module `VoiceControls`) covers the record button.
  - `formatTime` is modelled and proved to round-trip.
  - The two refs (`isPressingRef`, `shouldStopAfterStartRef`) form a pure
    step machine, and class `PressController` updates them in place. The
    main lemma says a press released while `startRecording()` is still
    pending stops the recording as soon as it starts, and only then.
  - The effect that hands the finished blob to the parent is modelled.
- `voice_chat.dfy` (module `VoiceChat`) models the room page.
  - The participant id `userId:instanceId` and `ensureClientInstanceId`
    over the tab's session storage, including a storage that throws.
  - The mapping of a poll result into the displayed messages, with the
    translation cache.
  - `exitRoom`, join, leave, send, the language swap, and the effect that
    leaves the room when the signed-in user changes.
  - Class `RoomClient` has one field per ref (the poll timer, the instance
    id, the cache) and the session storage. It also has a field `hooks`
    holding the `useState` values as one record. Each handler is a method
    that sets those values in the order the source does. `Session` is the
    same state as a value, and each method is proved equal to a function
    over it.
  - The polling effect's cleanup and setup are modelled by `AfterRender`.
    The cleanup stops the timer and clears the cache, and it exists only
    when the previous run got past the guard. The setup restarts the timer
    while in a room.
- `ads_route.dfy` (module `AdsRoute`) models `GET /api/ads`.
  - `slotKey` is normalised by trimming, and a blank value becomes null.
  - `limit` is normalised to a default of 10, clamped to [1, 20], with NaN
    and 0 read as 1.
  - The query keeps active rows of the slot, orders them by `updated_at`
    then `created_at` (both descending, nulls last) and applies `.limit`.
    It is modelled as a filter, a stable insertion sort and a prefix,
    proved to return the first `limit` matching rows in order.
  - The column-renaming projection is modelled.
  - Both 500 paths are modelled: missing configuration and a failed query.
- `js_text.dfy` (module `JsText`) holds the JavaScript string operations
  the models share:
  - the decimal rendering of a number, with a proof that it reads back;
  - `padStart`;
  - `String.prototype.trim` with ECMAScript's whitespace set.
- `wrappers.dfy` (module `Wrappers`) holds `Option`, and `Truthy`, which is
  JavaScript truthiness for an optional string.

Strings are `seq<char>` and integers are unbounded. The numbers involved
(status codes, seconds, delays, limits) stay far below 2^53, so JavaScript's
doubles represent them exactly.

## Model

| member | source | states |
|---|---|---|
| AudioUtils.BackoffBounded | lib/audio-utils.ts:46-47 | every backoff wait is at most 8000 + 249 ms |
| AudioUtils.BackoffDelay | lib/audio-utils.ts:47 | the wait is the base doubled once per earlier attempt plus the jitter while that stays within 8000 ms, and 8000 ms plus the jitter beyond |
| AudioUtils.SecondBackoffLonger | lib/audio-utils.ts:85-86 | for both bases (1000 and 1200 ms) the wait before the third request is longer than the wait before the second, whatever the jitters |
| AudioUtils.StatusFallbackNamesStatus | lib/audio-utils.ts:26 | the default message "请求失败（n）" contains the status in decimal, and it can be read back |
| AudioUtils.ParseErrorMessage | lib/audio-utils.ts:24-27 | the message is never empty; it is the body's non-empty `error`, else its non-empty `message`, else the default naming the status; a body that is not JSON, or is JSON `null`, gives the default |
| AudioUtils.OkOutcome | lib/audio-utils.ts:41-44 | an OK response returns its success field exactly when its body is JSON; a body that is not JSON throws the parse error, and a `null` body throws reading the field |
| AudioUtils.FailureFor | lib/audio-utils.ts:91-95 | the thrown error's message is exactly `parseErrorMessage`, so the fallback texts written after `message` are never used; only translation errors carry a status, and it is the response's status |
| AudioUtils.StopOutcome | lib/audio-utils.ts:36-53 | an answer that is not retried ends the call: a rejected `fetch` is passed on, an OK response gives its `OkOutcome`, any other response throws its `FailureFor` |
| AudioUtils.RunFrom | lib/audio-utils.ts:35-96 | the loop from attempt a on makes between a and 3 requests and waits once before each request but the first; the rest of its shape is `RunFromShape` |
| AudioUtils.RunFromShape | lib/audio-utils.ts:35-96 | for both `transcribeAudio`'s and `translateText`'s loop, from attempt a on: between a and 3 requests, one wait per retry following the backoff schedule, every retried answer a 429 response, and the outcome decided by the last answer (a rejection is passed on, OK returns its field, any other response throws) |
| AudioUtils.Call | lib/audio-utils.ts:35-56 | a whole call makes between one and three requests; its shape is `CallShape` |
| AudioUtils.CallShape | lib/audio-utils.ts:34-55 | every call makes 1 to 3 requests with one wait between consecutive requests, and stops at the first answer that is a rejection, is OK, is not 429, or is the third |
| AudioUtils.Schedule | lib/audio-utils.ts:46-48 | the first n waits of a call are `BackoffDelay` of attempts 1 to n with their jitters, one wait per retry |
| AudioUtils.StopIsUnique | lib/audio-utils.ts:35-55 | the stopping point of a response sequence is unique, so the number of requests is determined by the responses |
| AudioUtils.CallStopsAt | lib/audio-utils.ts:35-55 | when the answers stop at index k, the call makes k+1 requests, waits by the backoff schedule and ends as answer k says |
| AudioUtils.FirstOkReturns | lib/audio-utils.ts:41-44 | when the first k responses are 429 and the next is OK, the call makes exactly k+1 requests and returns that response's `text`/`translatedText` |
| AudioUtils.RejectedFetchPropagates | lib/audio-utils.ts:36-39 | a rejected `fetch` after k 429s ends the call at request k+1, after k waits, with that rejection; it is never retried |
| AudioUtils.OutcomeFromLastResponse | lib/audio-utils.ts:80-95 | a value is returned exactly when the last answer is an OK JSON response, and is its success field; an HTTP error is thrown exactly when the last answer is a response that is not OK, with that response's parsed message; the rejection is passed on exactly when the last answer is a rejected `fetch` |
| AudioUtils.ErrorStatusIsLastStatus | lib/audio-utils.ts:91-95 | translation errors carry the status of the last response, which is 429 when the third response is still rate-limited; transcription errors carry none |
| AudioUtils.ThreeRateLimitsGiveUp | lib/audio-utils.ts:85-95 | three 429s give three requests, two waits and an error with status 429 |
| AudioUtils.DelaysFollowBackoff | lib/audio-utils.ts:85-89 | wait i is `min(8000, base·2^i) + jitter_i`, lies between the base and 8249 ms, and the second wait is longer than the first |
| AudioUtils.RequestWithRetry | lib/audio-utils.ts:65-101 | the for-loop with `return`/`continue`/`throw` gives exactly the outcome, request count and waits of the reference `Call`; the throw after the loop is unreachable |
| AudioUtils.TranscribeAudio | lib/audio-utils.ts:29-57 | `transcribeAudio`: the reference outcome, 1 to 3 requests, errors with the parsed message and no status, and the rejection passed on exactly when the last `fetch` rejected |
| AudioUtils.TranslateText | lib/audio-utils.ts:59-102 | `translateText`: the reference outcome, 1 to 3 requests, errors with the parsed message and the last status, and the rejection passed on exactly when the last `fetch` rejected |
| AudioUtils.Sleep | lib/audio-utils.ts:1-11 | a wait of ms ≤ 0 resolves at once whatever the signal; otherwise an aborted signal rejects, else a timer of exactly ms is set |
| AudioUtils.RetryWaitsSetTimers | lib/audio-utils.ts:48 | every backoff wait is positive, so `sleep` really sets a timer for it |
| JsText.NatToString | lib/audio-utils.ts:26 | the rendering of a number is a non-empty digit string, one digit exactly below 10, with no leading zero |
| JsText.NatToStringRoundTrip | lib/audio-utils.ts:26 | the decimal rendering of a status or a number of minutes reads back as the same number |
| JsText.NatToStringInjective | components/voice-controls.tsx:50-52 | different numbers render differently |
| JsText.PadStart | components/voice-controls.tsx:52 | a string at least as wide as asked is kept; a shorter one gets pad characters in front up to the width |
| JsText.Trim | app/api/ads/route.ts:18-19 | `trim()` returns a contiguous part of the input; everything cut off on either side is whitespace, and the result neither starts nor ends with whitespace |
| JsText.TrimEmptyIff | app/api/ads/route.ts:18 | a parameter trims to "" exactly when it consists only of whitespace |
| JsText.TrimOfClean | app/api/ads/route.ts:18-19 | a string that neither starts nor ends with whitespace trims to itself |
| JsText.TrimIdempotent | app/api/ads/route.ts:18-19 | trimming twice is trimming once |
| VoiceControls.FormatTime | components/voice-controls.tsx:49-53 | the label is the whole minutes in decimal, a ':', and two digits whose value is the seconds modulo 60 |
| VoiceControls.PaddedSeconds | components/voice-controls.tsx:52 | padding seconds below 60 to two digits keeps their value |
| VoiceControls.FormatTimeRoundTrip | components/voice-controls.tsx:49-53 | the label can be read back as the elapsed seconds, so no two times share a label |
| VoiceControls.PressStart | components/voice-controls.tsx:55-62 | a press is ignored (flags unchanged) while processing, while recording or for a non-primary button; otherwise it sets "pressing" and clears "stop after start" |
| VoiceControls.PressEnd | components/voice-controls.tsx:85-93 | releasing always clears "pressing"; it stops directly exactly when recording, and otherwise sets "stop after start" |
| VoiceControls.StartSettled | components/voice-controls.tsx:70-80 | after a successful start the recording is stopped at once exactly when the button is no longer pressed or a stop was requested; a failed start resets both flags |
| VoiceControls.StopsIffReleasedBeforeStart | components/voice-controls.tsx:55-93 | after an accepted press, with no further accepted press, the recording stops right after it starts exactly when a release happened while the start was pending |
| VoiceControls.ReleasedStaysStopping | components/voice-controls.tsx:85-91 | once released, the flags keep asking for a stop through any further ignored presses and releases, and only a release can make them ask |
| VoiceControls.CompletedRecording | components/voice-controls.tsx:21-25 | the blob is handed over exactly when there is one and recording has ended |
| VoiceControls.PressController.constructor | components/voice-controls.tsx:18-19 | both refs start false |
| VoiceControls.PressController.HandlePressStart | components/voice-controls.tsx:55-62 | the refs are updated as `PressStart` says, and the result tells whether `startRecording` is called |
| VoiceControls.PressController.OnStartSettled | components/voice-controls.tsx:70-80 | the refs and the decision to stop are as `StartSettled` says |
| VoiceControls.PressController.HandlePressEnd | components/voice-controls.tsx:85-93 | the refs and the direct stop are as `PressEnd` says |
| VoiceChat.EnsureInstance | components/voice-chat-interface.tsx:79-101 | it throws exactly when the ref is empty, a window exists and the storage is blocked, or is full with no stored id; otherwise the returned id is non-empty and equals the new ref; a set ref is returned unchanged; without a window a fresh id goes only to the ref; a stored id is adopted without writing, even when storage is full; with usable storage and no stored id a fresh id is written to storage and ref |
| VoiceChat.EnsureInstanceIdempotent | components/voice-chat-interface.tsx:79-80 | after one call that returned an id, every later call returns the same id and changes nothing, whatever the storage does and whatever it would generate |
| VoiceChat.StorageFailureRepeats | components/voice-chat-interface.tsx:87-98 | a call that throws leaves the ref empty, so every later call with the same storage throws again |
| VoiceChat.StoredInstanceIdKept | components/voice-chat-interface.tsx:87-92 | an id already in session storage is reused and the storage is not written, whether or not storage is full |
| VoiceChat.ReloadKeepsInstanceId | components/voice-chat-interface.tsx:87-100 | after a reload of the tab (empty ref, same session storage) the same instance id comes back, as long as the storage can be read |
| VoiceChat.ParticipantId | components/voice-chat-interface.tsx:205 | a signed-in participant id is the user id, a ':' and the instance id; otherwise it is the anonymous id |
| VoiceChat.ParticipantIdDecomposes | components/voice-chat-interface.tsx:205 | without a user id the participant is the anonymous id; with one, the participant id splits at its first ':' back into the user id and the instance id |
| VoiceChat.ParticipantIdsDistinct | components/voice-chat-interface.tsx:205 | different users or different instance ids give different participant ids |
| VoiceChat.Decide | components/voice-chat-interface.tsx:149-157 | a non-empty cached value under "<id>:<target>" wins; else no translation is needed exactly when the original language is the target; else translation is needed |
| VoiceChat.AvatarById | components/voice-chat-interface.tsx:146 | the avatar map has exactly the ids of the listed users |
| VoiceChat.AvatarByIdLastWins | components/voice-chat-interface.tsx:146 | an id maps to the avatar of the last user listed with it |
| VoiceChat.ToMessage | components/voice-chat-interface.tsx:149-178 | an entry keeps the server message's fields, shows the target language, is the user's own exactly when sent by this participant, takes the sender's avatar, and shows the non-empty cached text, else the original when no translation is needed or it failed, else the translation |
| VoiceChat.MapPoll | components/voice-chat-interface.tsx:147-180 | one entry per server message, in order, each built from that message against the cache as it was when the poll arrived |
| VoiceChat.MapPollStep | components/voice-chat-interface.tsx:147-148 | the list for the first i+1 server messages is the list for the first i plus the entry for message i |
| VoiceChat.MapPollFaithful | components/voice-chat-interface.tsx:147-178 | each entry keeps id, author and original text, is the user's own exactly when its author is the participant, and shows the cached text, the original, or the successful translation as the decision says |
| VoiceChat.CacheAfterPollStep | components/voice-chat-interface.tsx:158-160 | each further message writes its successful translation over the cache so far, and nothing else |
| VoiceChat.CacheAfterPoll | components/voice-chat-interface.tsx:155-163 | the cache after a poll: what it keeps, stores and never loses is stated by `CacheAfterPollFrame`, `CacheAfterPollStores` and `CacheAfterPollGrows` |
| VoiceChat.CacheAfterPollFrame | components/voice-chat-interface.tsx:155-163 | keys that no successful translation of the poll wrote are unchanged, including cache hits, same-language messages and failed translations |
| VoiceChat.CacheAfterPollStores | components/voice-chat-interface.tsx:158-160 | a successful translation is in the cache afterwards under its key, unless a later message of the poll overwrote that key |
| VoiceChat.CacheAfterPollGrows | components/voice-chat-interface.tsx:155-163 | a poll never removes a cache key |
| VoiceChat.NextPollUsesCache | components/voice-chat-interface.tsx:149-160 | a message translated into non-empty text is served from the cache by the next poll in the same language, with no second translation |
| VoiceChat.AfterRender | components/voice-chat-interface.tsx:121-122 | with `t` and `exitRoom` taken as stable, a render that leaves the other dependencies alone changes nothing; otherwise the cache is cleared and the timer stopped exactly when the previous run passed the guard (only then did it register its cleanup), and the timer is running afterwards when the guard now holds; hooks and instance are untouched |
| VoiceChat.AfterRenderValid | components/voice-chat-interface.tsx:121-201 | from a valid session, the render after a handler keeps the invariant, and the cache is cleared exactly when the dependencies changed while the guard held |
| VoiceChat.InitialSessionValid | components/voice-chat-interface.tsx:53-77 | the mounted state satisfies the session invariant and does not poll |
| VoiceChat.Exit | components/voice-chat-interface.tsx:103-119 | out of the room with empty room id, participant id, messages and users, no joined user, no timer, an empty cache; languages, user name, instance id and processing flag kept; the invariant holds |
| VoiceChat.ExitSettled | components/voice-chat-interface.tsx:189-201 | the polling effect's cleanup after `exitRoom` finds the timer stopped and the cache empty, and its setup does not start a timer, so the render changes nothing |
| VoiceChat.ExitIdempotent | components/voice-chat-interface.tsx:103-119 | exiting twice is exiting once |
| VoiceChat.ApplyPoll | components/voice-chat-interface.tsx:125-186 | a 410 exits; a failed request, a non-JSON body, `success` false or a missing room leave the state as it was |
| VoiceChat.ApplyPollFrame | components/voice-chat-interface.tsx:143-182 | a successful poll replaces the users by the snapshot's and the messages by the `MapPoll` list (one entry per server message), sets the cache to `CacheAfterPoll` of the cache it found, which keeps every key, and changes nothing else |
| VoiceChat.JoinIdentity | components/voice-chat-interface.tsx:205 | anonymous joins use the anonymous id and leave the instance untouched; signed-in joins run `ensureClientInstanceId` and use `userId:instanceId`, or fail when it throws |
| VoiceChat.Join | components/voice-chat-interface.tsx:203-241 | a join whose identity step throws changes nothing (the `catch` shows a toast); otherwise the instance is the one `JoinIdentity` leaves, and a successful join enters under its participant id |
| VoiceChat.JoinAs | components/voice-chat-interface.tsx:220-232 | on a success answer the room id, user name, participant id, joined user and "in room" are set, the users are replaced when the body carries them, and messages, languages, processing flag and instance are kept; any other answer changes nothing |
| VoiceChat.JoinOutcome | components/voice-chat-interface.tsx:203-241 | a successful join sets exactly the room id, user name, joined user, "in room", the derived participant id and the users from the body, polls exactly when the room id is non-empty, clears the cache only when a polling effect was torn down, and keeps the invariant; a failed join changes only the instance id; a signed-in join whose storage access throws changes nothing |
| VoiceChat.Leave | components/voice-chat-interface.tsx:243-262 | any answer to the leave request, 410 or not, exits the room; a request that threw changes nothing |
| VoiceChat.SentMessage | components/voice-chat-interface.tsx:309-318 | a message is posted exactly when transcription succeeded, from the participant, with the transcript and the spoken and shown languages |
| VoiceChat.RecordingComplete | components/voice-chat-interface.tsx:298-354 | processing always ends; a 410 from sending exits the room; otherwise nothing else changes |
| VoiceChat.OwnMessageRecognised | components/voice-chat-interface.tsx:152 | a sent message that comes back in a poll is marked as the user's own, and when spoken and shown languages agree it is never sent for translation |
| VoiceChat.SwapLanguages | components/voice-chat-interface.tsx:286-289 | the spoken and shown languages trade places and no other hook changes; the timer restarts, and the cache is cleared, only when the shown language's name changes while in a room that polls |
| VoiceChat.SwapTwice | components/voice-chat-interface.tsx:286-289 | a swap keeps a valid session valid and the timer as it was; swapping twice restores both languages and everything else, except that the cache is cleared when the shown language's name changed while polling |
| VoiceChat.AuthChangeLeaves | components/voice-chat-interface.tsx:264-270 | no leave after an exit; after a join whose identity step succeeded, no leave after an anonymous join or while the joining user is signed in, and a different signed-in user triggers a leave |
| VoiceChat.RoomClient.constructor | components/voice-chat-interface.tsx:53-77 | the mounted component: out of any room, English spoken, Chinese shown, anonymous id "user-…", empty ref and cache |
| VoiceChat.RoomClient.Rerender | components/voice-chat-interface.tsx:189-201 | the fields change as `AfterRender` says |
| VoiceChat.RoomClient.EnsureClientInstanceId | components/voice-chat-interface.tsx:79-101 | ref, storage and result are as `EnsureInstance` says; when a storage call throws it reports that and nothing changes |
| VoiceChat.RoomClient.ExitRoom | components/voice-chat-interface.tsx:103-119 | the fields become `Exit` of the old state, which satisfies the invariant from any state |
| VoiceChat.RoomClient.HandleJoinRoom | components/voice-chat-interface.tsx:203-241 | the fields become `Join` of the old state, and the invariant is kept |
| VoiceChat.RoomClient.JoinResponseArrived | components/voice-chat-interface.tsx:220-232 | after a success answer the room fields are set under the given participant id; otherwise nothing changes |
| VoiceChat.RoomClient.HandlePollResponse | components/voice-chat-interface.tsx:125-186 | the fields become `ApplyPoll` of the old state, and the invariant is kept |
| VoiceChat.RoomClient.BuildEntry | components/voice-chat-interface.tsx:148-178 | the entry is the `ToMessage` of the message against the cache on arrival; the cache gets this message's translation under "<id>:<target>" exactly when that translation was needed and succeeded, and is otherwise untouched |
| VoiceChat.RoomClient.MapMessages | components/voice-chat-interface.tsx:146-182 | the loop writing the cache in place yields the `MapPoll` list and the `CacheAfterPoll` cache, and only the cache changes |
| VoiceChat.RoomClient.HandleLeaveResponse | components/voice-chat-interface.tsx:243-262 | the fields become `Leave` of the old state; the "expired" notice is chosen exactly on 410 |
| VoiceChat.RoomClient.HandleRecordingComplete | components/voice-chat-interface.tsx:298-354 | the fields become `RecordingComplete` of the old state and the posted message is `SentMessage` |
| VoiceChat.RoomClient.HandleLanguageSwap | components/voice-chat-interface.tsx:286-289 | the fields become `SwapLanguages` of the old state, and the invariant is kept |
| VoiceChat.RoomClient.OnAuthUserChange | components/voice-chat-interface.tsx:264-270 | the effect starts a leave exactly when in a room, both the joined and the current user ids are set, and they differ |
| AdsRoute.SearchParam | app/api/ads/route.ts:18-19 | absent exactly when no pair has the name; otherwise the value of the first pair with that name |
| AdsRoute.NormalizeSlotKey | app/api/ads/route.ts:18 | no slot filter exactly when the parameter is absent or blank; otherwise the trimmed value |
| AdsRoute.NormalizeSlotKeyIdempotent | app/api/ads/route.ts:18 | normalising a normalised slot key changes nothing |
| AdsRoute.NormalizedSlotKeyIsClean | app/api/ads/route.ts:18 | a slot key used as a filter is non-empty and neither starts nor ends with whitespace |
| AdsRoute.NumberValue | app/api/ads/route.ts:20 | `Number` of a trimmed parameter; that it reads decimals back is `NumberValueOfDecimal`, and the forms it does not read are listed under "Left out" |
| AdsRoute.NumberValueOfDecimal | app/api/ads/route.ts:20 | `Number` reads a decimal rendering, with or without a sign, as that number |
| AdsRoute.NormalizeLimit | app/api/ads/route.ts:19-20 | the limit is always in [1, 20]; absent or blank gives 10; NaN, zero or negative gives 1; 1 to 20 is kept; above 20 gives 20 |
| AdsRoute.LimitRoundTrip | app/api/ads/route.ts:20 | every limit from 1 to 20 written in decimal is used as it is |
| AdsRoute.LimitIgnoresSurroundingWhitespace | app/api/ads/route.ts:19-20 | the limit depends only on the trimmed parameter |
| AdsRoute.Select | app/api/ads/route.ts:31-36 | the kept rows are active and of the slot, each as often as in the table; every other row is dropped |
| AdsRoute.NotAfterIsTotalPreorder | app/api/ads/route.ts:39-40 | "not after" in the two-key order (`updated_at` then `created_at`, descending, nulls last) is reflexive, total and transitive, "before" is irreflexive, asymmetric and transitive, and rows tie exactly when both timestamps are equal |
| AdsRoute.Insert | app/api/ads/route.ts:39-40 | inserting a row adds exactly that row |
| AdsRoute.InsertSorted | app/api/ads/route.ts:39-40 | inserting into an ordered list keeps it ordered |
| AdsRoute.SortRows | app/api/ads/route.ts:39-40 | ordering is a permutation of the matching rows |
| AdsRoute.SortRowsSorted | app/api/ads/route.ts:39-40 | the ordered rows are in query order |
| AdsRoute.Take | app/api/ads/route.ts:41 | `.limit(n)` gives a prefix of min(n, rows) rows |
| AdsRoute.TakeKeepsFirst | app/api/ads/route.ts:39-41 | no row dropped by the limit comes before a returned row |
| AdsRoute.QueryRows | app/api/ads/route.ts:31-41 | the query returns min(limit, matching) rows; the rest of what it promises is `QueryRowsMeetOrder` |
| AdsRoute.QueryRowsMeetOrder | app/api/ads/route.ts:31-41 | the query returns only active rows of the slot from the table, min(limit, matching) of them, within the matching rows, in order, and none left out that should precede a returned one |
| AdsRoute.ProjectAds | app/api/ads/route.ts:47-53 | one ad per row; `ProjectAdsFaithful` states the columns it carries |
| AdsRoute.ProjectAdsFaithful | app/api/ads/route.ts:47-53 | one ad per row in the same order, with `id`, `slot_key`, `title`, `image_url`, `link_url` under their new names |
| AdsRoute.ProjectAdsAppend | app/api/ads/route.ts:47-53 | projecting commutes with concatenation |
| AdsRoute.ConfigOf | app/api/ads/route.ts:22-27 | configured exactly when the URL is set and the service-role or anonymous key is; the service-role key is preferred |
| AdsRoute.Get | app/api/ads/route.ts:16-63 | status 500 exactly when configuration is missing or the query failed, with an error body "缺少 Supabase 环境变量" or the database's message; otherwise 200 with the ads and `Cache-Control: no-store` |
| AdsRoute.GetListsSelectedAds | app/api/ads/route.ts:16-62 | a successful answer is the projection of the query's rows: at most `limit` ads, each the projection of an active row of the requested slot; with no parameters it lists up to ten ads of any slot |

## Left out

- Fetch, FormData, JSON parsing, `setTimeout`/`setInterval`, toasts, `console`, `alert`, `navigator.clipboard` and `URL.createObjectURL` are I/O. Responses, jitters, generated ids, timestamps and whether session storage is usable, blocked or full are inputs instead.
- AudioUtils.Sleep: only the decision made when `sleep` is called is modelled. The timer firing, the abort listener's registration and removal depend on timers and events.
- AudioUtils.RunFrom: an abort of `translateText`'s signal during a backoff wait, which makes the call throw `AbortError`, is not modelled, because it depends on when the abort event fires. An abort that makes `fetch` reject is the `Rejected` answer.
- The transcription and translation endpoints behind the fetches, and the `/api/rooms` store, are not part of this model. In the client, only their answers matter, and those are inputs.
- VoiceChat.MapPoll: every cache lookup reads the cache as it was when the poll arrived, because `Promise.all` starts every callback before any translation resolves. When two messages in one poll have the same id, their cache writes are applied in list order. In the page they land in completion order, which is nondeterministic.
- Overlapping polls and a poll that resolves after `exitRoom` depend on asynchronous scheduling. The model applies each poll response to the state current at that moment.
- VoiceChat.AfterRender: the polling effect also depends on `t` and `exitRoom` (components/voice-chat-interface.tsx:201). The model takes both to keep their identity. A UI-locale change from the header renews `t`; in the page that stops the timer, clears the cache, restarts the timer and polls at once, so `NextPollUsesCache` does not hold across it. The locale and its switch are not part of this model.
- VoiceChat.ApplyPoll: the render between `setUsers` and `setMessages` of a poll (while the translations are awaited) is not a separate state of the value model. The class method sets the two fields in that order. Neither field is a dependency of the polling effect, so that render starts and stops nothing.
- VoiceChat.RecordingComplete: the renders while processing is under way (`isProcessing` true while transcribing and sending) are not separate states of the value model. The class method sets the flag at the start and clears it at the end. The flag is not a dependency of the polling effect.
- VoiceControls.CompletedRecording: the effect also re-runs when `onRecordingComplete` changes identity. The page's handler is a `useCallback` that is rebuilt when the room, participant, user name or languages change or when `t` or `toast` get a new identity (components/voice-chat-interface.tsx:353), so a blob still held after a stop is handed over again after such a change. The model decides one run of the effect and does not track the callback's identity.
- A translation or transcription that resolves to `undefined` is not modelled. Translations are `Translated(text)` or `TranslationFailed`, and a transcript is present or absent.
- `new Date(msg.timestamp)` is kept as the server's string. Ad row timestamps are integer instants, not the database's text form.
- A room body whose `users` or `messages` field is missing is not modelled. In the page, a missing `messages` makes `room.messages.map` throw after `setUsers`, so the users are replaced and the old messages are kept (components/voice-chat-interface.tsx:144-183).
- VoiceChat.JoinAs: a join answer whose `data.room` is present but has no `users` field is not modelled. In the page, `setUsers(undefined)` runs after the other join setters (components/voice-chat-interface.tsx:222-227), so the user list becomes `undefined`. `JoinResponse.roomUsers` is `None` only when the room itself is missing, where the expression throws and the users are kept.
- `handleClearChat`, `handleCopyRoomId`, the settings state and the rendered markup have no logic to model.
- The window and document listeners that stop a recording on pointer-up, blur or a hidden page (components/voice-controls.tsx:27-47) are browser events.
- The audio recorder hook and the button's pointer capture are browser APIs.
- VoiceControls.FormatTime: modelled for whole non-negative seconds, on the assumption that the recorder hook counts whole seconds from zero; that hook is not part of this model. Negative and fractional inputs are not modelled.
- AdsRoute.NumberValue, AdsRoute.NormalizeLimit: only `Number` of signed or unsigned decimal integers is modelled. Fractions, exponents, hexadecimal, binary and octal forms, and `Infinity` are read as NaN (limit 1), although JavaScript reads them as other numbers.
- AdsRoute.SearchParam: percent-decoding and `+` handling of the query string are not modelled. The parameters are already decoded pairs.
- AdsRoute.SortRows: for rows that tie on both timestamps, the database leaves the order open. The model keeps table order, and no property depends on that choice.
- AdsRoute.Get: a database answer with neither data nor an error is not modelled. The query's error is an input.
- The Supabase client and query builder are not modelled. Only the selection, order and limit their chained calls express are.
- The language selector, header, auth provider and guard, the Prisma client, the translate route and the ad admin dialogs are not part of this model.
