# Interview assistant: call session, CV upload and interview store

This project models three parts of a Next.js mock-interview application and
proves properties of the models in Dafny.

- **The call-session component** (`components/Agent.tsx`), in `agent.dfy` and
  `session_model.dfy`.
  - `AgentComponent.Agent` is a class. It holds the component's props and its
    React state (`callStatus`, `messages`, `isSpeaking`, `error`) as fields,
    and has one method per handler and user action.
  - `AgentComponent.Provider` stands for the voice provider singleton. It holds
    the registry of `(event, handler)` pairs that `on`/`off` change, and a
    record of the `start` and `stop` calls.
  - Each method is proved against a function of `SessionModel`. `Apply` is what
    one handler does to the state, `Dispatch` runs several handlers on one event,
    and `FinishedEffect`/`EffectRun` give the FINISHED effect.
  - The lemmas of `SessionModel` state what the handlers promise. Among them:
    the transcript is append-only; cleanup restores the registry; and the call
    sequences that exhibit the component's behaviour as written.
- **The CV upload endpoint** (`app/api/process-cv/route.ts`), in `cv_text.dfy`
  and `cv_route.dfy`.
  - `CvText` defines these steps as recursive functions on strings:
    - the five cleaning steps: line endings, newline runs, inline whitespace,
      special characters and trim;
    - the split into non-blank sections;
    - the header formatting.
  - Each step carries its own lemmas.
  - `ProcessCv.Post` is the request handler. It validates the form and
    answers 200, 400 or 500.
- **The interview store** (`lib/actions/interview.action.ts`), in
  `interview_store.dfy`.
  - `InterviewActions.InterviewStore` holds the `interviewData` collection as a
    `map` field.
  - `dbReady` says whether the database handle exists.
  - `SaveInterviewData` updates one key. `GetInterviewData` reads it.

`base.dfy` holds `Option` and JavaScript truthiness of an optional string.

## How the model reads the JavaScript

- **`\s` and `trim`.** JavaScript's `\s` and the characters `trim` removes are
  the same set. It has 25 code points: tab, LF, VT, FF, CR, space, NBSP, U+1680,
  U+2000–U+200A, U+2028, U+2029, U+202F, U+205F, U+3000 and U+FEFF. This set is
  `CvText.IsSpace`.
- **`[^\S\n]`** is `IsSpace` without the line feed (`IsInlineSpace`).
- **`\w`** (no `u` flag) is ASCII letters, digits and `_` (`IsWordChar`).
- **`toUpperCase`** is ASCII-only (`UpperChar`).
- **Strings** are sequences of code points. None of the patterns involve
  characters outside the Basic Multilingual Plane, so working on UTF-16 code
  units would give the same result.
- **`split` and `join`.**
  - `split` with a non-empty separator is `CvText.Split`: the pieces between
    the occurrences of the separator, found left to right.
  - `join` is `CvText.Join`. `JoinSplit` proves that join undoes split.
- **Handler identity.** A closure is a `Handler(kind, scope)`. `kind` says which
  of the nine closures it is. `scope` is a fresh object for each run of the
  mount effect and each call of `handleCall`, so two closures are equal exactly
  when the source's `off(event, handler)` would find them equal.
- **Injected inputs.**
  - The client clock is a `now` parameter.
  - The `NEXT_PUBLIC_VAPI_WEB_TOKEN` variable is a `token` parameter.
  - The result of `createFeedback` is a `FeedbackOutcome`.
  - How `start` settles is a `StartOutcome`.
  - A store failure is a `writeFails` or `readFails` flag.
- **Recorded effects.**
  - Calls of `router.push` are appended to `navigations`.
  - Calls of `createFeedback` are appended to `feedbackRequests`.
- **Thrown exceptions.**
  - In the endpoint, each exception is replaced by the answer of its catch
    clause.
  - In `handleCall`, each exception is replaced by the state its catch clause
    leaves.

## Behaviour of the code that a reader may not expect

The model follows the code in each of these points.

- **No feedback on ERROR.** Only `FINISHED` triggers the feedback step. An
  `error` event sets `ERROR`, or `COMPLETED` when a `handleCall` session is
  live, and that alone requests no feedback
  (`SessionModel.ErrorDuringCallSkipsFeedback`). The mount-time `call-end`
  handler stays registered when a session is cleaned up, so a `call-end` that
  arrives after the error still sets `FINISHED`, and the next commit requests
  feedback (`SessionModel.ErrorThenCallEndRequestsFeedback`).
- **Feedback can be requested more than once.** Nothing guards the feedback
  step against running twice. The effect depends on `messages`, so a final
  transcript that arrives after `FINISHED` requests feedback again, with the
  longer transcript (`SessionModel.LateTranscriptRequestsFeedbackAgain`).
- **Two handlers per event during a call.** While a `handleCall` session is
  live, two handlers listen to `message` and two to `error`.
  - An assistant's final transcript is saved twice
    (`SessionModel.AssistantReplySavedTwice`).
  - An assistant's partial transcript is saved once, by `handleCall`'s handler
    alone (`SessionModel.DuplicatedDuringCall`).
- **The `callEnded` event.** The provider's event stream consists of
  `call-start`, `call-end`, `message`, `speech-start`, `speech-end` and
  `error`. It has no `callEnded` event, but `handleCall` listens for one. The
  model keeps it as a channel of its own (`CallEndedChannel`). Its handler runs
  only if the provider emits that name.
- **Cleanup when `start` fails.** When `start` rejects, the catch clause sets
  `COMPLETED` with the error message. It does not remove the three handlers it
  has just registered (`AgentComponent.Agent.StartSettled`).
- **The order of the cleaning steps.** The steps run in the order of the
  source. The special-character filter runs after both collapsing steps.
  Removing a character can therefore bring two spaces together, or join two
  newline runs into three or more line feeds. For example, `"a\n\n#\n\nb"`
  cleans to `"a\n\n\n\nb"`, which splits into the sections `"a"` and `"b"`
  around an empty piece. So the cleaned text is only guaranteed to have the
  alphabet and the trimmed ends of `CvText.CleanAlphabet`. The collapse
  guarantees hold just after their own steps (`CollapseNewlinesBounded`,
  `CollapseInlineSpaceSingle`).
- **A plain form field named `file`.** If `file` is a non-empty plain field,
  `!file` is false. Reading `.type.includes` on a string then throws, and the
  answer is 500, not 400 (`ProcessCv.Post`). An empty field is falsy and gets
  400.

## Model

| member | source | states |
|---|---|---|
| AgentComponent.Provider.constructor | types/vapi.d.ts:10-15 | A new provider has an empty registry and no recorded start or stop call. |
| AgentComponent.Provider.On | types/vapi.d.ts:11 | `on` appends exactly the pair `(event, handler)` to the registry. |
| AgentComponent.Provider.Off | types/vapi.d.ts:12 | `off` removes every occurrence of the pair and keeps the order of the rest (`Without`). |
| AgentComponent.Provider.Start | types/vapi.d.ts:13 | `start` records the configuration it was given. |
| AgentComponent.Provider.Stop | types/vapi.d.ts:14 | `stop` is recorded exactly once more. |
| AgentComponent.Agent.constructor | components/Agent.tsx:52-55 | The initial state is INACTIVE with an empty transcript, not speaking, and no error. Nothing is mounted, requested or navigated. |
| AgentComponent.Agent.Mount | components/Agent.tsx:96-108 | The mount effect registers its six pairs, in table order. They are created in a fresh scope and follow everything registered before. |
| AgentComponent.Agent.Unmount | components/Agent.tsx:110-115 | The cleanup calls `off` for each of the six pairs the mount registered, and nothing else. |
| AgentComponent.Agent.OnCallStart | components/Agent.tsx:61-64 | `call-start` sets ACTIVE and clears the error. |
| AgentComponent.Agent.OnCallEnd | components/Agent.tsx:66-68 | `call-end` sets FINISHED. |
| AgentComponent.Agent.OnMessage | components/Agent.tsx:70-79 | The transcript grows by one entry, at the end, exactly for a final non-empty transcript message. Otherwise it is unchanged. |
| AgentComponent.Agent.OnSpeechStart | components/Agent.tsx:81-83 | `speech-start` sets the speaking flag. |
| AgentComponent.Agent.OnSpeechEnd | components/Agent.tsx:85-87 | `speech-end` clears the speaking flag. |
| AgentComponent.Agent.OnError | components/Agent.tsx:89-93 | `error` stores the error's message and sets ERROR. |
| AgentComponent.Agent.HandleCall | components/Agent.tsx:154-213 | Two cases, and neither clears the transcript. Without a token: COMPLETED with "VAPI token is not configured", no registration, no start. With a token: CONNECTING with the error cleared, the three call handlers registered in a fresh scope, and the provider started with the assistant configuration. |
| AgentComponent.Agent.StartSettled | components/Agent.tsx:208-213 | A rejected `start` sets COMPLETED with its message, or "Failed to start interview". A resolved one changes nothing. The call handlers stay registered. |
| AgentComponent.Agent.HandleMessage | components/Agent.tsx:165-174 | Appends one entry for any assistant message with a non-empty transcript, whatever its type. Otherwise the transcript is unchanged. |
| AgentComponent.Agent.RemoveCallHandlers | components/Agent.tsx:178-180 | Exactly the three pairs of that `handleCall` are removed, in order. |
| AgentComponent.Agent.HandleCallEnded | components/Agent.tsx:176-181 | `callEnded` sets COMPLETED and unregisters the session's three pairs. |
| AgentComponent.Agent.HandleError | components/Agent.tsx:183-189 | The session's error handler records the message, sets COMPLETED and unregisters the three pairs. |
| AgentComponent.Agent.HandleDisconnect | components/Agent.tsx:216-219 | `handleDisconnect` sets FINISHED and stops the provider once. |
| AgentComponent.Agent.Invoke | components/Agent.tsx:61-93 | Calling a handler changes the state exactly as `Apply` says for that closure and event. |
| AgentComponent.Agent.InvokeAll | components/Agent.tsx:106-108 | Calling handlers one after the other gives `Dispatch` of them. |
| AgentComponent.Agent.Deliver | components/Agent.tsx:96-108 | An emitted event runs exactly the handlers registered under its name, in registration order. The registry stays well formed. |
| AgentComponent.Agent.HandleGenerateFeedback | components/Agent.tsx:119-131 | With both ids present, records one createFeedback request carrying the ids, the current transcript and the feedback id. Otherwise it records nothing. |
| AgentComponent.Agent.Commit | components/Agent.tsx:145-152 | Only a run of the effect while FINISHED acts. It runs when messages or status changed since its last run. On "generate" it navigates home. Otherwise it requests feedback when the ids are present. |
| AgentComponent.Agent.FeedbackSettled | components/Agent.tsx:133-142 | A successful result with an id navigates to `/interview/{id}/feedback`. Any other outcome records the error and navigates to `/`. |
| SessionModel.Name | components/Agent.tsx:97-102 | The event name each channel is registered under, including handleCall's `callEnded` (Agent.tsx:192). NamesDistinct is its property. |
| SessionModel.NamesDistinct | components/Agent.tsx:97-102 | Different channels have different names, and only the `callEnded` channel is named "callEnded", so it is not one of the six names the mount table registers. |
| SessionModel.MountTable | components/Agent.tsx:96-103 | The six `(event, handler)` pairs of the mount effect, in source order. Its partners are MountRegistersOnePerEvent, MountedHandlers and MountCleanupRestores. |
| SessionModel.CallTable | components/Agent.tsx:191-193 | The three pairs `handleCall` registers and removes. Its partners are CallRegistersThree and CallCleanupRestores. |
| SessionModel.Apply | components/Agent.tsx:61-93 | What each of the nine closures does to the state. `Agent.Invoke` is proved equal to it, and LifecycleEvents, ErrorEventOutcome, MessageEventOutcome and DispatchAppendOnly state its effects. |
| SessionModel.Dispatch | components/Agent.tsx:106-108 | The handlers of one emission called in order. `Agent.InvokeAll` and `Agent.Deliver` are proved equal to it. |
| SessionModel.EffectRun | components/Agent.tsx:145-152 | The FINISHED effect reruns only when its dependencies changed. `Agent.Commit` is proved against it, and LateTranscriptRequestsFeedbackAgain and ErrorThenCallEndRequestsFeedback exhibit it. |
| SessionModel.AssistantConfigFor | components/Agent.tsx:195-206 | The assistant configuration: the greeting template, where a missing position renders as "undefined", and the fixed voice and model. `Agent.HandleCall` passes it to start. |
| SessionModel.LastMessage | components/Agent.tsx:58 | The content of the newest entry, or "" for an empty transcript. LastMessageAfterDispatch states how events change it. |
| SessionModel.StartButtonShown | components/Agent.tsx:282 | The start button is shown unless ACTIVE. CallControls relates it to the other button. |
| SessionModel.StartButtonLabel | components/Agent.tsx:289 | "Request Call" when the type is `call`, "Start Interview" otherwise. StartButtonLabels states which kinds share a label. |
| SessionModel.StartButtonLabels | components/Agent.tsx:289 | The label is "Request Call" exactly for `call`, and two kinds get the same label exactly when both or neither are `call`. |
| SessionModel.StartButtonDisabled | components/Agent.tsx:286 | The shown start button is disabled while CONNECTING. CallControls relates it to the other button. |
| SessionModel.DisconnectButtonShown | components/Agent.tsx:292-296 | The disconnect button is shown exactly when the start button is not. |
| SessionModel.ListenersFor | components/Agent.tsx:106-108 | The handlers called for an event are exactly those registered under its name, and no more of them than there are pairs. |
| SessionModel.Without | components/Agent.tsx:113 | `off(event, handler)` removes that pair and nothing else: the pair is gone, every other pair stays, nothing new appears, and the registry does not grow. |
| SessionModel.RemoveAll | components/Agent.tsx:111-115 | A sequence of `off` calls leaves only pairs of the old registry. |
| SessionModel.Unregister | components/Agent.tsx:111-115 | Removing a table registered between pairs that do not belong to it restores the registry to those other pairs, in order. |
| SessionModel.MountCleanupRestores | components/Agent.tsx:96-115 | Mount followed by its cleanup returns the registry to its prior contents, whatever was registered before or after. |
| SessionModel.CallCleanupRestores | components/Agent.tsx:176-193 | The `off` calls of `handleCallEnded` and `handleError` remove exactly the three pairs `handleCall` registered. |
| SessionModel.MountRegistersOnePerEvent | components/Agent.tsx:96-108 | Mount adds exactly one handler to each of the six events and none to `callEnded`. |
| SessionModel.CallRegistersThree | components/Agent.tsx:191-193 | `handleCall` adds one handler each to `message`, `callEnded` and `error`, and none to any other event. |
| SessionModel.MountedHandlers | components/Agent.tsx:96-103 | Each of the six events of a freshly mounted component has exactly its own mount-time handler. |
| SessionModel.SessionHandlers | components/Agent.tsx:191-193 | With a call session live, `message` and `error` each run the mount handler and then the session's. |
| SessionModel.DispatchAppendOnly | components/Agent.tsx:77 | Any event keeps the old transcript as a prefix and adds at most one entry per handler. Each new entry carries the message's role, its non-empty transcript and the time. Events other than `message` add nothing. |
| SessionModel.LifecycleEvents | components/Agent.tsx:61-87 | `call-start` gives ACTIVE with no error. `call-end` gives FINISHED. `speech-start`/`speech-end` set or clear the flag. Nothing else changes, in particular not the transcript. |
| SessionModel.ErrorEventOutcome | components/Agent.tsx:89-93 | `error` records its message and keeps the transcript. The status is ERROR when the mount handler runs last, COMPLETED when a session's handler does. |
| SessionModel.MessageEventOutcome | components/Agent.tsx:70-79 | A `message` appends its entry once per listening handler that accepts it, at the end, and changes nothing else. |
| SessionModel.MountedMessage | components/Agent.tsx:70-79 | With only the mount handler listening, a message is appended once exactly when it is a final non-empty transcript. |
| SessionModel.DuplicatedDuringCall | components/Agent.tsx:165-174 | During a call session, one message is appended once for each guard it passes: the final-transcript guard and the assistant guard. |
| SessionModel.AssistantReplySavedTwice | components/Agent.tsx:191 | During a call session, an assistant's final transcript is saved twice in a row. |
| SessionModel.ErrorDuringCallSkipsFeedback | components/Agent.tsx:183-189 | An error during a session ends COMPLETED with the message and only the mount pairs registered. The commit right after it requests no feedback. |
| SessionModel.ErrorThenCallEndRequestsFeedback | components/Agent.tsx:145-152 | After such an error, a `call-end` still reaches the surviving mount handler. It sets FINISHED, keeps the transcript and the error, and the next commit requests feedback. |
| SessionModel.CallCleanupLeavesMount | components/Agent.tsx:176-189 | Removing a session's pairs leaves the mount pairs intact. |
| SessionModel.FinishedEffect | components/Agent.tsx:145-151 | Only FINISHED acts. "generate" navigates home. Missing ids stop the step. Otherwise feedback is requested with both ids. |
| SessionModel.LateTranscriptRequestsFeedbackAgain | components/Agent.tsx:152 | After FINISHED, a late final transcript is appended and the next commit requests feedback again. |
| SessionModel.AfterFeedback | components/Agent.tsx:133-142 | No error exactly for success with a non-empty id, and then the route is the feedback page. Otherwise the route is `/`, with the rejection's message or "Failed to save feedback". |
| SessionModel.LastMessageAfterDispatch | components/Agent.tsx:58 | The shown line is the newest transcript after an append, and unchanged otherwise. |
| SessionModel.CallControls | components/Agent.tsx:282-296 | The user has an enabled button in every status except CONNECTING: the disconnect button while ACTIVE, the enabled start button otherwise. |
| CvText.NormalizeLineEndings | app/api/process-cv/route.ts:28 | Each CR LF pair becomes one line feed. Its partners are NormalizeUndoesCrlf, NormalizeWithoutCr and NormalizeVisible. |
| CvText.CollapseNewlines | app/api/process-cv/route.ts:29 | Each run of three or more line feeds becomes two. CollapseNewlinesConcat and CollapseNewlinesPieces characterise it. |
| CvText.CollapseInlineSpace | app/api/process-cv/route.ts:30 | Each run of non-newline whitespace becomes one space. CollapseInlineSpaceConcat and CollapseInlineSpacePieces characterise it. |
| CvText.StripSpecial | app/api/process-cv/route.ts:31 | Removes every character outside `[\w\s\n.,!?-]`. StripSpecialConcat characterises it. |
| CvText.Trim | app/api/process-cv/route.ts:32 | Cuts the leading and trailing whitespace. TrimSlice, TrimEnds and TrimEmptyIff characterise it. |
| CvText.Clean | app/api/process-cv/route.ts:27-32 | The five steps in source order. CleanKeepsVisible, CleanAlphabet and CleanEmpty are its properties. |
| CvText.Join | app/api/process-cv/route.ts:51 | The parts with the separator between consecutive ones. JoinSplit shows it undoes Split. |
| CvText.NonBlank | app/api/process-cv/route.ts:39 | Keeps the parts whose trim is non-empty. NonBlankConcat, NonBlankOne and NonBlankFilters characterise it. |
| CvText.Sections | app/api/process-cv/route.ts:39 | The non-blank pieces of the split on `"\n\n"`. SectionsOfText gives at least one for text with a non-space. |
| CvText.FormatSection | app/api/process-cv/route.ts:42-50 | The header rule for one section. FormatSectionSpec states it in terms of the section's text. |
| CvText.FormatText | app/api/process-cv/route.ts:42-51 | Every section formatted, joined with `"\n\n"`. ProcessTextSpec and ProcessCv.PostAccepts use it. |
| CvText.ProcessText | app/api/process-cv/route.ts:27-51 | The cleaned, split, filtered and formatted text, or nothing when cleaning leaves nothing. ProcessTextSpec states when each case occurs. |
| CvText.NormalizeWithoutCr | app/api/process-cv/route.ts:28 | Text without a carriage return is unchanged by line-ending normalisation. |
| CvText.NormalizeUndoesCrlf | app/api/process-cv/route.ts:28 | Normalisation undoes writing each line feed as CR LF. |
| CvText.NormalizeVisible | app/api/process-cv/route.ts:28 | Normalisation keeps every letter, digit and kept punctuation mark, in order. |
| CvText.CollapseNewlinesConcat | app/api/process-cv/route.ts:29 | Cut between two characters that are not both line feeds, the newline step rewrites each side on its own. |
| CvText.CollapseNewlinesPieces | app/api/process-cv/route.ts:29 | A maximal run of three or more line feeds becomes exactly `"\n\n"`. A shorter run, or any other character, is kept. |
| CvText.LeadingRun | app/api/process-cv/route.ts:29 | The run measured is the maximal run of the character at the start. |
| CvText.CollapseNewlinesBounded | app/api/process-cv/route.ts:29 | After the newline step, no three consecutive line feeds remain. |
| CvText.CollapseNewlinesKeepsShortRuns | app/api/process-cv/route.ts:29 | Text whose line-feed runs have length one or two is unchanged. |
| CvText.CollapseNewlinesIdempotent | app/api/process-cv/route.ts:29 | The newline step applied twice equals applied once. |
| CvText.CollapseNewlinesKeepsOthers | app/api/process-cv/route.ts:29 | Every character other than a line feed is kept, in order. |
| CvText.CollapseNewlinesVisible | app/api/process-cv/route.ts:29 | The visible characters are kept, in order. |
| CvText.CollapseInlineSpaceConcat | app/api/process-cv/route.ts:30 | Cut between two characters that are not both inline whitespace, the whitespace step rewrites each side on its own. |
| CvText.CollapseInlineSpacePieces | app/api/process-cv/route.ts:30 | A maximal run of non-newline whitespace becomes exactly one `' '`. Any other character is kept. |
| CvText.LeadingInline | app/api/process-cv/route.ts:30 | The run measured is the maximal run of non-newline whitespace at the start. |
| CvText.CollapseInlineSpaceSingle | app/api/process-cv/route.ts:30 | After the whitespace step, every non-newline whitespace is a plain space and no two are adjacent. |
| CvText.CollapseInlineSpaceKeepsSingle | app/api/process-cv/route.ts:30 | Text that is already single-spaced is unchanged. |
| CvText.CollapseInlineSpaceIdempotent | app/api/process-cv/route.ts:30 | The whitespace step applied twice equals applied once. |
| CvText.CollapseInlineSpaceKeepsOthers | app/api/process-cv/route.ts:30 | Line feeds and non-whitespace characters are kept, in order. |
| CvText.CollapseInlineSpaceVisible | app/api/process-cv/route.ts:30 | The visible characters are kept, in order. |
| CvText.StripSpecialConcat | app/api/process-cv/route.ts:31 | The filter works character by character. It distributes over concatenation, and a single character is kept exactly when it is allowed. |
| CvText.StripSpecialFilters | app/api/process-cv/route.ts:31 | The step's output is a subsequence of its input made only of allowed characters. |
| CvText.StripSpecialKeepsAllowed | app/api/process-cv/route.ts:31 | Text made only of allowed characters is unchanged. |
| CvText.StripSpecialVisible | app/api/process-cv/route.ts:31 | The visible characters are kept, in order. |
| CvText.TrimStart | app/api/process-cv/route.ts:32 | The result is a suffix of the text. Exactly the leading whitespace is cut off. |
| CvText.TrimEnd | app/api/process-cv/route.ts:32 | The result is a prefix of the text. Exactly the trailing whitespace is cut off. |
| CvText.TrimSlice | app/api/process-cv/route.ts:32 | `trim` gives a slice of the text with only whitespace before and after it. |
| CvText.TrimEnds | app/api/process-cv/route.ts:32 | Non-empty trimmed text starts and ends with non-whitespace. |
| CvText.TrimEmptyIff | app/api/process-cv/route.ts:32 | The trim is empty exactly when the text is all whitespace. |
| CvText.TrimVisible | app/api/process-cv/route.ts:32 | `trim` keeps the visible characters. |
| CvText.VisibleOfSlice | app/api/process-cv/route.ts:32 | Cutting whitespace off both ends keeps the visible characters. |
| CvText.CleanKeepsVisible | app/api/process-cv/route.ts:27-32 | Cleaning keeps every letter, digit, `_` and `.,!?-` of the input, in order. |
| CvText.CleanAlphabet | app/api/process-cv/route.ts:27-32 | Cleaned text has only ASCII word characters, `.,!?-`, space and line feed. It has no leading or trailing whitespace, so no CR or tab survives. |
| CvText.StrippedAlphabet | app/api/process-cv/route.ts:30-31 | After the whitespace and filter steps, only the cleaned alphabet remains. |
| CvText.TrimKeepsAlphabet | app/api/process-cv/route.ts:32 | `trim` keeps text within the cleaned alphabet. |
| CvText.CleanEmpty | app/api/process-cv/route.ts:27-36 | The cleaned text is empty, which is the case that throws, exactly when the input has no letter, digit, `_` or `.,!?-`. |
| CvText.ContainsIff | app/api/process-cv/route.ts:47 | `includes` holds exactly when the substring occurs at some position. |
| CvText.Split | app/api/process-cv/route.ts:39 | A split always has at least one piece. |
| CvText.JoinSplit | app/api/process-cv/route.ts:39 | Joining a split's pieces with the same separator gives back the text. |
| CvText.SplitPiecesFree | app/api/process-cv/route.ts:39 | No piece of a split contains the separator. |
| CvText.SplitLeftmost | app/api/process-cv/route.ts:39 | `split` cuts at the leftmost occurrence (`CutsLeftmost`): none starts inside the first piece. There is a second piece exactly when the separator follows the first piece, and the remaining pieces split the rest. A single piece is the whole text. |
| CvText.SplitFirstPrefix | app/api/process-cv/route.ts:45 | The first piece is a prefix of the text. |
| CvText.NonBlankFilters | app/api/process-cv/route.ts:39 | The kept parts are a subsequence of the parts, and none is all whitespace. Every part that is not all whitespace appears among them. |
| CvText.NonBlankConcat | app/api/process-cv/route.ts:39 | The section filter distributes over concatenation, so equal parts are kept independently: `["x", "x"]` keeps both. |
| CvText.NonBlankOne | app/api/process-cv/route.ts:39 | A single part is kept exactly when it is not all whitespace. |
| CvText.SectionsOfText | app/api/process-cv/route.ts:39 | Text with a non-whitespace character has at least one section. |
| CvText.UpperSpec | app/api/process-cv/route.ts:45 | Upper-casing keeps the length and maps each lower-case letter to its capital. It leaves every other character alone and is idempotent. |
| CvText.LinesOfSection | app/api/process-cv/route.ts:45-48 | The first line runs up to the first line feed, and the text is first line, line feed, rest. A section without a line feed is its own first line, with an empty rest. |
| CvText.FormatSectionSpec | app/api/process-cv/route.ts:42-50 | A section without a header is emitted unchanged. A header section gets a leading line feed and an upper-cased first line, and keeps the rest from its first line feed; a one-line section gains a final line feed. |
| CvText.JoinStartsWithFirst | app/api/process-cv/route.ts:51 | The joined text starts with its first part. |
| CvText.ProcessTextSpec | app/api/process-cv/route.ts:27-53 | There is text to return exactly when the file has a visible character, and that text is not empty. |
| ProcessCv.Post | app/api/process-cv/route.ts:3-61 | The handler with each exception replaced by its catch answer. PostMissingFile, PostWrongType, PostAccepts and PostFails characterise every case. |
| ProcessCv.PostMissingFile | app/api/process-cv/route.ts:8-13 | 400 "No file provided" exactly when the form has no truthy `file` entry. |
| ProcessCv.PostWrongType | app/api/process-cv/route.ts:16-21 | 400 "Only text files (.txt) are supported" exactly when the file's type lacks `text/plain`. |
| ProcessCv.PostTextUpload | app/api/process-cv/route.ts:24-53 | A text upload with nothing visible gets 500. Otherwise it gets 200 with the formatted sections of its cleaned text, which are non-empty. |
| ProcessCv.PostAccepts | app/api/process-cv/route.ts:24-53 | Status 200 exactly for a text upload with a visible character. The body is then the formatted sections of the cleaned text and is not empty. |
| ProcessCv.PostFails | app/api/process-cv/route.ts:54-59 | The status is 200, 400 or 500. 500 always carries "Failed to process CV file". A text upload with nothing visible gets it. |
| InterviewActions.OrNull | lib/actions/interview.action.ts:31-32 | `value or null`: an absent or empty value becomes null. BuildRecordSpec states it field by field. |
| InterviewActions.BuildRecord | lib/actions/interview.action.ts:28-34 | The record a save writes. BuildRecordSpec and BuildRecordStable are its properties. |
| InterviewActions.Lookup | lib/actions/interview.action.ts:51-52 | The record under an id, or null when there is none. SaveInterviewData and GetInterviewData are stated with it. |
| InterviewActions.BuildRecordSpec | lib/actions/interview.action.ts:28-34 | The record keeps name, position and timestamp. An absent or empty optional field is stored as null and a non-empty one as given. |
| InterviewActions.BuildRecordStable | lib/actions/interview.action.ts:31-32 | Normalising a stored record's optional fields to null again rebuilds the same record. |
| InterviewActions.InterviewStore.constructor | lib/actions/interview.action.ts:22 | The store starts with the given handle state and collection. |
| InterviewActions.InterviewStore.SaveInterviewData | lib/actions/interview.action.ts:13-42 | Success exactly with a database and no write failure, and then the record is stored under the id. On failure nothing changes. Other ids never change. |
| InterviewActions.InterviewStore.GetInterviewData | lib/actions/interview.action.ts:44-57 | A record exactly when there is a database, no read failure and a record under the id, and then it is the stored one. Otherwise null. |
| InterviewActions.SaveTwice | lib/actions/interview.action.ts:36 | Two successful saves under one id leave the second record. Under different ids both are readable, the result does not depend on which ran first, and every other id keeps its record. |
| InterviewActions.SaveThenGet | lib/actions/interview.action.ts:36-52 | With a database, a save followed by a get of the same id returns the record just built. |

## Left out

- The JSX rendering is not modelled: images, CSS, the error banner and the transcript card. The derived values it shows are (`LastMessage`, the button predicates and the label).
- React's scheduling is not modelled.
  - Each handler's state updates are applied at once and in source order.
  - A commit (`Commit`) is a separate step that the model's caller chooses when to take.
  - `setMessages(prev => …)` appends to the current transcript. The model does the same.
- The `questions` and `phoneNumber` props are not modelled, because the component never reads them.
- AgentComponent.Agent.Deliver: it assumes the provider snapshots the handler list when an event is emitted. So a handler removed by an earlier handler of the same emission still runs. The provider's emitter is not part of this model.
- AgentComponent.Provider.Off: removes every equal pair, while the provider's emitter removes one registration per call. This makes no difference here, because no reachable registry holds a pair twice: each pair's closure is made in a fresh scope.
- SessionModel.EffectRun: the effect's dependency list names seven values (Agent.tsx:152). The model tracks only `messages` and `callStatus`, because it treats the props (`type`, `userId`, `interviewId`, `feedbackId`) and `router` as constant for the component's lifetime. A re-run of the FINISHED effect caused by a prop change is not modelled.
- AgentComponent.Agent.Deliver: takes one `now` for a whole emission. So the two copies of an assistant reply share a timestamp, while the source reads the clock separately in each handler.
- AgentComponent.Agent.HandleCall: its ghost out-parameter only names the fresh scope. Everything it changes is stated on the fields.
- The provider's own behaviour after `start` and `stop` is not modelled. Which events it emits and when is the caller's choice through `Deliver`.
- `createFeedback` in lib/actions/general.action is not part of this model. Its settled result is an input (`FeedbackOutcome`).
- Logging with `console` is not modelled, because it has no effect on state.
- `router.push` is recorded as a route, not performed.
- The wall clock is not modelled (`new Date().toISOString()`). Timestamps are parameters.
- The environment token is a parameter of `HandleCall`.
- The body of the request is not parsed in the model. It is either unparsable (500) or a form whose `file` entry is absent, a plain field or a file. Reading the file is not modelled: its MIME type and decoded text are given.
- CvText.UpperSpec: covers ASCII only, while JavaScript's `toUpperCase` also maps non-ASCII letters. For the endpoint this makes no difference: the filter step has already removed every non-ASCII letter before any upper-casing.
- The Firebase SDK is not modelled. firebase/admin.ts is reduced to whether the handle exists (`dbReady`).
- InterviewActions.InterviewStore.SaveInterviewData: models a failed write as writing nothing, because the document write either applies or fails.
- InterviewActions.InterviewStore.GetInterviewData: returns the stored record as it is. The `as InterviewData` cast of the document's data is not checked at run time and is not modelled.
- Concurrency between server actions is not modelled. Each save and get is one atomic step on the map.
- call_me.py is not part of this model: a telephony request, a GUI and a thread.
- test-vapi.js is not part of this model: a one-off HTTP script.
- app/api/call/route.ts is not part of this model: HTTP forwarding to the provider.
- next.config.ts is not part of this model: build configuration.
- Phone-number normalisation lives in app/(root)/interview/[id]/page.tsx, which is not part of this model.
- types/vapi.d.ts is used only for the `Message` datatype and the provider's four operations.
- A concrete input is not exhibited for the cleaning-order effect described above, where the filter reopens a run of three line feeds or two spaces. Only the guarantees that hold are proved.
