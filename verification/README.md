# chat-ai: the chat screen's view logic and the auth-cookie client, in Dafny

This project models the two pieces of the chat-ai web client that carry logic of
their own, as immutable data and pure transition functions, and proves what
they guarantee.

- **The chat screen** (`src/components/ui/chat/chat-home.tsx`). Its state is one
  record `ChatState` holding the text input, the staged `FileList`, the preview
  URL, the per-message `isPlaying` flags, the set of messages that have an
  audio element, and the theme. The model covers:
  - the date grouping of the message list (`groupedMessages`);
  - the avatar rule (`showAvatar`);
  - the submit gate (`onSubmit`, `handleKeyDown`, the send button's `disabled`);
  - attachment staging (`handleFileChange`, `clearFile`);
  - the text-to-speech playback flags (`playTextToSpeech` and `onended`);
  - the theme switch (`toggleTheme`).
- **The HTTP client** (`src/services/api/instance.ts`). The cookie store is a
  map from cookie names to strings. The model covers:
  - the bearer header (`authHeader_Bearer`);
  - the request interceptor's header merge;
  - the response-error interceptor's cookie transitions by status and the
    value it rejects with.

The current time, the locale date formatter, object-URL creation, the
speech request and the token-refresh request are not computed by the model.
They are parameters, or the outcome of an event that is an input.

Modules, one per file: `Wrappers` (Option), `Text` (ECMAScript `trim`),
`Messages`, `DateGroups`, `Avatars`, `ChatState`, `Composer`, `Playback`,
`AuthCookies`.

Behaviour of the code that the proofs make explicit:
- Groups follow the order in which their key first appears, and dates that
  are not contiguous are merged into one group (`NonContiguousDatesMerge`).
- `onSubmit` does not check `isLoading`, so Enter submits while the send
  button is disabled (`EnterSubmitsWhileLoading`).
- A stop requested before the speech audio exists is ignored, and the message
  stays marked playing (`StopIgnoredBeforeFirstAudio`).
- Nothing stops one message when another starts playing
  (`TwoMessagesPlayAtOnce`).
- After a 401 the interceptor refreshes the tokens but never retries the
  request: it always rejects (`ResponseInterceptorSettles`).

## Model

| member | source | states |
|---|---|---|
| Text.Trim | src/components/ui/chat/chat-home.tsx:70 | `input.trim()` is no longer than the input and neither starts nor ends with ECMAScript whitespace or a line terminator; `TrimKeepsMiddle` says what it keeps |
| Text.TrimKeepsMiddle | src/components/ui/chat/chat-home.tsx:70 | `input.trim()` is one contiguous slice of the input, and everything cut off before and after it is ECMAScript whitespace or a line terminator |
| Text.TrimEmptyIffBlank | src/components/ui/chat/chat-home.tsx:70 | `input.trim()` is empty exactly when every character of the input is ECMAScript whitespace or a line terminator |
| Text.TrimIdempotent | src/components/ui/chat/chat-home.tsx:70 | trimming an already trimmed input changes nothing |
| DateGroups.KeyOf | src/components/ui/chat/chat-home.tsx:138-139 | a message is keyed by the date of its own `createdAt`, or by the date of "now" when it has none |
| DateGroups.AddToGroups | src/components/ui/chat/chat-home.tsx:141-145 | one step of the reduce; specified by `AddToGroupsShape` and `AddToGroupsDates` |
| DateGroups.GroupByDate | src/components/ui/chat/chat-home.tsx:136-149 | the reduce over the whole message list; specified by `GroupByDateSpec` against the reference grouping, with `GroupSizesSumToLength`, `GroupsInFirstAppearanceOrder` and `ContiguousDatesRoundTrip` |
| DateGroups.AddToGroupsShape | src/components/ui/chat/chat-home.tsx:141-145 | one reduce step keeps every existing group in place under its heading; only the group with the message's key grows, by that message at its end; a new key opens a group at the end |
| DateGroups.AddToGroupsDates | src/components/ui/chat/chat-home.tsx:141-145 | one reduce step leaves the headings unchanged for a known key and appends a new key; headings stay distinct |
| DateGroups.GroupByDateSpec | src/components/ui/chat/chat-home.tsx:136-149 | the grouping has one group per distinct date key, in first-appearance order; each group holds exactly the messages with that key, in their original order |
| DateGroups.EachMessageInItsDateGroup | src/components/ui/chat/chat-home.tsx:136-149 | headings are distinct; every message's key heads a group; a message is in a group exactly when the group's heading is its key; a message without `createdAt` is keyed by the date of "now" |
| DateGroups.GroupSizesSumToLength | src/components/ui/chat/chat-home.tsx:136-149 | the group sizes add up to the number of messages: nothing is lost or duplicated |
| DateGroups.GroupsInFirstAppearanceOrder | src/components/ui/chat/chat-home.tsx:141-145 | for groups i < j, the key of group i occurs in the message list before any occurrence of the key of group j |
| DateGroups.ContiguousDatesRoundTrip | src/components/ui/chat/chat-home.tsx:141-145 | when each date's messages form one run, concatenating the groups gives back the original message list |
| DateGroups.NonContiguousDatesMerge | src/components/ui/chat/chat-home.tsx:138-145 | for messages keyed A, B, A the grouping is exactly [A: first and third, B: second] |
| DateGroups.NonContiguousDatesReorder | src/components/ui/chat/chat-home.tsx:138-145 | in that case concatenating the groups does not give back the message list |
| Avatars.ShowAvatar | src/components/ui/chat/chat-home.tsx:235 | the avatar test for one position of a date group; specified by `ShowAvatarIffStartsRun` and `AvatarOnlyAtRunHead` |
| Avatars.ShowAvatarIffStartsRun | src/components/ui/chat/chat-home.tsx:235 | the avatar shows at a position exactly when no earlier position starts a same-role stretch reaching it, i.e. it opens a run of one role |
| Avatars.ShowAvatarDependsOnlyOnRoles | src/components/ui/chat/chat-home.tsx:235 | two groups with the same role sequence get the same avatar decisions |
| Avatars.AvatarOnlyAtRunHead | src/components/ui/chat/chat-home.tsx:235 | in a stretch of one role only its first message can show the avatar, and it does when it starts the group or follows another role |
| ChatState.Initial | src/components/ui/chat/chat-home.tsx:18-24 | a fresh screen is dark, has nothing staged and no playback flags or audio |
| ChatState.ToggleTheme | src/components/ui/chat/chat-home.tsx:27-31 | the theme changes to the other one and nothing else changes |
| ChatState.ToggleThemeTwice | src/components/ui/chat/chat-home.tsx:27-31 | toggling the theme twice restores the state |
| Composer.ClearFile | src/components/ui/chat/chat-home.tsx:58-64 | staged files and preview are cleared; input, flags, audio and theme are kept |
| Composer.ClearFileIdempotent | src/components/ui/chat/chat-home.tsx:58-64 | clearing twice is the same as clearing once |
| Composer.HasSomethingToSend | src/components/ui/chat/chat-home.tsx:70 | the shared "input not blank or files staged" test; `SendButtonAgreesWithSubmit` and `EnterDispatchSends` show that the submit handler, the Enter key and the send button all apply it |
| Composer.OnSubmit | src/components/ui/chat/chat-home.tsx:67-77 | nothing is sent, and nothing changes, exactly when the input is blank and no files are staged; otherwise exactly one submission carries the input and the staged files, and afterwards files and preview are cleared |
| Composer.OnKeyDown | src/components/ui/chat/chat-home.tsx:152-160 | Enter without Shift suppresses the newline; it dispatches a submit exactly when the form exists and the input is not blank or files are staged |
| Composer.SendDisabled | src/components/ui/chat/chat-home.tsx:358 | the send button's `disabled` flag; specified by `SendButtonAgreesWithSubmit` and `EnterSubmitsWhileLoading` |
| Composer.SendButtonAgreesWithSubmit | src/components/ui/chat/chat-home.tsx:358 | when not loading, the send button is enabled exactly when a submit would send and exactly when Enter would dispatch one |
| Composer.EnterDispatchSends | src/components/ui/chat/chat-home.tsx:152-160 | a submit dispatched by Enter always sends the input and staged files |
| Composer.EnterSubmitsWhileLoading | src/components/ui/chat/chat-home.tsx:152-160 | while loading, with something to send, the button is disabled but Enter still dispatches and the submit still sends |
| Composer.OnFilesChosen | src/components/ui/chat/chat-home.tsx:44-55 | an absent or empty file list changes nothing; a non-empty one is staged; the preview changes only when the first file's type starts with `image/`, and then to that file's URL |
| Composer.NonImageKeepsOldPreview | src/components/ui/chat/chat-home.tsx:44-55 | choosing a non-image after an image stages the non-image while the image's preview stays |
| Composer.StagingConsistentPreserved | src/components/ui/chat/chat-home.tsx:44-77 | a staged list is never empty and a preview implies staged files, initially and after every composer transition |
| Playback.TogglePlayback | src/components/ui/chat/chat-home.tsx:85-96 | a speech request goes out exactly when the message is not playing, and the message is then marked playing; a playing message with audio is marked stopped; a playing message without audio is left exactly as it was; only the flag changes |
| Playback.SettleSynthesis | src/components/ui/chat/chat-home.tsx:111-132 | a failed synthesis clears the message's flag; a successful one records its audio element and leaves the flag |
| Playback.EndAudio | src/components/ui/chat/chat-home.tsx:124-126 | when playback ends the message is marked not playing and nothing else changes |
| Playback.ApplyFrame | src/components/ui/chat/chat-home.tsx:85-133 | an event for one message never changes another message's flag or audio, nor the composer or the theme |
| Playback.ApplyKeepsAudio | src/components/ui/chat/chat-home.tsx:118-122 | audio elements are never removed |
| Playback.RunFrame | src/components/ui/chat/chat-home.tsx:85-133 | over any run of events, a message that no event names keeps its flag and audio, and the composer and theme are untouched |
| Playback.StopIgnoredBeforeFirstAudio | src/components/ui/chat/chat-home.tsx:87-94 | start then stop before any audio exists: the stop is ignored, the message stays playing, and only the start issued a request |
| Playback.StartPlayStop | src/components/ui/chat/chat-home.tsx:85-128 | start, successful synthesis, then stop leaves the message not playing |
| Playback.StartFailReset | src/components/ui/chat/chat-home.tsx:111-132 | start followed by failed synthesis leaves the message not playing and creates no audio |
| Playback.TwoMessagesPlayAtOnce | src/components/ui/chat/chat-home.tsx:85-96 | starting two different messages marks both playing |
| AuthCookies.StripQuotes | src/services/api/instance.ts:11 | the result contains no double quote, is no longer than the token, and equals a token that had none |
| AuthCookies.StripQuotesAppend | src/services/api/instance.ts:11 | quote removal distributes over concatenation |
| AuthCookies.StripQuotesChar | src/services/api/instance.ts:11 | a double quote is dropped and any other character kept |
| AuthCookies.StripQuotesIdempotent | src/services/api/instance.ts:11 | removing quotes twice is removing them once |
| AuthCookies.AuthHeaderBearer | src/services/api/instance.ts:7-16 | the header is empty exactly when the access-token cookie is absent or empty; otherwise its only key is `Authorization`, holding "Bearer " and the token without quotes |
| AuthCookies.BearerHeaderShape | src/services/api/instance.ts:7-16 | every header value starts with "Bearer " and has no quote after it; the header depends on the access-token cookie alone |
| AuthCookies.OnRequest | src/services/api/instance.ts:25-36 | every header other than `Authorization` is kept; `Authorization` becomes the bearer value when the token is truthy; with no token the headers are unchanged |
| AuthCookies.RefreshRequest | src/services/api/instance.ts:47-53 | the refresh endpoint is called, with the refresh cookie, exactly on a 401 while the refresh cookie is non-empty |
| AuthCookies.RejectionOf | src/services/api/instance.ts:65-74 | the rejection carries status and message when a response exists (a `TypeError` when its body is null), otherwise the request when one exists, otherwise the error |
| AuthCookies.OnResponseError | src/services/api/instance.ts:39-76 | the error path always rejects, with the value above |
| AuthCookies.ResponseErrorCookies | src/services/api/instance.ts:42-63 | 403 removes both token cookies; 401 without a refresh token removes only the access cookie; a successful refresh sets both to the returned values, `''` when missing; a failed refresh removes both; other statuses leave the store alone |
| AuthCookies.OtherCookiesUntouched | src/services/api/instance.ts:42-63 | cookies other than the two tokens are never changed |
| AuthCookies.RefreshOutcomeUnusedUnlessRequested | src/services/api/instance.ts:47-62 | when no refresh call is made, the result does not depend on the refresh outcome |
| AuthCookies.LoggedOutAfterRejectedCredentials | src/services/api/instance.ts:42-61 | after a 403 or a failed refresh no token cookie remains and the next request has no bearer header |
| AuthCookies.RefreshInstallsNewBearer | src/services/api/instance.ts:52-57 | after a successful refresh the refresh cookie holds the new value and the next request carries the new access token; with no access token in the reply the cookie is empty and no header is sent |
| AuthCookies.ResponseInterceptorSettles | src/services/api/instance.ts:39-76 | a response always resolves to itself, and the error handler never resolves: it rejects with the same value whatever the cookies and the refresh outcome |

## Left out

- Chat hook internals (`useChat` from `@ai-sdk/react`): message history, streaming, `isLoading` and `error` belong to library code that is not part of this model. `isLoading` appears only as a parameter of the send button's `disabled` flag. The submission is an output value, and the hook's clearing of the input after `handleSubmit` is not modelled.
- The speech request itself (`fetch` to the TTS service, `response.blob()`, `URL.createObjectURL`, `new Audio`, `play`, `pause`): network and browser I/O. A toggle reports whether it issues a request, and the request's settlement is an input event (`Synthesized` / `SynthesisFailed`). A rejected `play()` promise is not caught by the source and is not modelled.
- Stale closures: `playTextToSpeech` reads `isPlaying` from the render that created the handler, while the updates use `prev`. The model reads the current state, as if every event re-rendered first.
- DateGroups.GroupByDate: the source calls `Date.now()` once per message lacking `createdAt`. The model uses one `now` for the whole pass, so a pass straddling midnight is not modelled.
- DateGroups.GroupByDate: JavaScript objects list integer-like keys first, in numeric order. The model orders groups by insertion alone. Strings from `toLocaleDateString` contain separators and are never integer-like.
- Locale formatting (`toLocaleDateString`, `toLocaleTimeString`): the date key is an uninterpreted function `dateKey` of the timestamp.
- Rendering: JSX, styling, scrolling, the `dark` class on `document.documentElement`, resetting the file input's value, the image-attachment filter of the message bubble, and `console.log`.
- `src/app/api/chat/route.ts`: a relay over the model provider's streaming call. Its only logic is a 400 when `messages` is missing and a 500 catch-all.
- `src/services/api/api.ts`: one-line axios wrappers. The refresh call is modelled only as its outcome (`RefreshOutcome`). Its own failure re-enters the same interceptor, and that re-entry is not modelled.
- `src/components/ModalLocationAndNotification/index.tsx`, `src/components/ExplanationButton/index.tsx`, `src/app/layout.tsx`: UI and browser-permission plumbing with trivial boolean state.
- The request interceptor's error handler (`(error) => Promise.reject(error)`): it passes the error through and has nothing to prove.
- Cookie persistence (`js-cookie`) and the axios instances: an in-memory map stands in for the cookie store. The interceptor's `await` points are taken as atomic steps.
- AuthCookies.OnResponseError: a `null` error object, and a `null` (rather than missing) `accessToken` or `refreshToken` in the refresh reply, are not modelled. Token fields are strings or absent.
