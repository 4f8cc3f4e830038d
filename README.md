# Batch image generation: scheduler and retry wrapper

This project models the core of a small browser app that sends every uploaded image, paired with one or more text prompts, to an image-generation service.

- **Batch controller and scheduler (`App.tsx`).** It builds the image × prompt batch. It keeps a FIFO queue of work items and a counter of active requests with a ceiling of 2. A re-entrant pump dispatches queued work. Calls settle into the output list. The controller also handles cancel, regenerate-one and the edits of the image and prompt lists.
- **Generation service (`services/geminiService.ts`).**
  - `generateImage` turns an SDK response into a data URL or a specific error.
  - `generateImageWithRetry` wraps it in a bounded retry with exponential backoff and an abort check.

The model has five modules:

- `Types` (types.ts): the records `UploadedImage`, `Prompt` and `OutputItem`, the status enum and the app mode.
- `JsString`: `String.prototype.trim` over the ECMAScript whitespace and line-terminator set, used by the readiness check and by prompt resolution.
- `GeminiService`: pure functions.
  - The SDK call is an input (`SdkOutcome`).
  - Each attempt of the retry wrapper is an `Attempt`: whether the signal was already aborted, and what the SDK did.
  - The wrapper returns its outcome, the delays it would have slept, and the attempts at which it called the SDK.
  - A JavaScript `Error` keeps `name` and `message` apart, because the code tests the name while `new Error('AbortError')` sets only the message.
- `Scheduler`: the component as a state machine. It has one step function per handler (`GenerateSpec`, `PumpSpec`, `SettleSpec`, `CancelSpec`, `RegenerateSpec`, …) and `Step` over an `Event` type. It also holds the properties proved about those steps.
  - Overlapping network waits need no concurrency. A dispatched call stays in `inFlight` until a `Settle` event, and the environment chooses which in-flight call settles next.
  - Every pump takes the session (images, mode, vector prompt, prompts) that its `processQueue` closure read.
- `App`: class `BatchController`. It holds the refs and state of the component as fields and updates them in place.
  - `ProcessQueue` is recursive.
  - `StartEffect` pumps in a loop.
  - `BuildBatch` and `AppendRow` are the nested loops of `handleGenerate`.
  - `HandleAddImages` loops over the files.
  - Every method is proved to leave the object exactly where the matching `Scheduler` step function says.

## Where the code departs from its apparent intent

The model follows the code in all of these places. Lemmas in `Scheduler` and `GeminiService` exhibit each one. Each intent below is read from the code itself: a constant, a guard, a comment or a message string.

- **The counter can go below zero.** `API_CONCURRENCY_LIMIT` (App.tsx:12) and the guard of `processQueue` (App.tsx:47) apparently mean that no more than 2 calls are ever in flight, and `handleCancel` resets the counter to 0 (App.tsx:147) as though nothing were in flight any more. But the calls already in flight keep running, and each still decrements the counter in its `finally` block (App.tsx:87).
  - `CancelThenSettleGoesNegative` shows the counter at -1.
  - `RegenerateAfterCancelOverlaps` shows a regenerate after a cancel dispatching a call while the counter reads 1, with one more call in flight than before.
  - The ceiling is therefore proved per step, under the condition that no cancel or new batch resets the counter while calls are in flight (`CeilingHoldsWithoutReset`).
- **The flag can stay set.** The settle path clears `isGenerating` once the queue is empty and nothing is active (App.tsx:88-89), so the flag apparently means "work remains". The missing-source path (App.tsx:70-75) pumps again but never clears it. `MissingSourceLeavesFlagSet` shows a regenerate of an output whose image was removed: it ends with the flag set, an empty queue, a zero count and nothing left that would clear it.
- **A pre-attempt abort is retried.** The comment "Don't retry if aborted by user" (services/geminiService.ts:65) and the "Cancelled by user." message chosen for an `AbortError` (App.tsx:84) show that an aborted call is meant to fail at once as a cancellation. But the wrapper's own abort check throws `new Error('AbortError')` (services/geminiService.ts:60), whose name is "Error", so neither name check (services/geminiService.ts:64, App.tsx:84) recognises it.
  - `PreAttemptAbortIsRetried` shows three attempts, both backoff sleeps and no SDK call.
  - Inside the component the first attempt never sees an aborted signal: it runs at dispatch, and every dispatch happens under a live controller (`ControllerStaysLive`). A cancel during a backoff sleep does reach the later attempts. `AbortedCallShowsRawMessage` shows such a call settling with the card reading "AbortError" rather than "Cancelled by user.".
- **Cancelled results can be overwritten.** `handleCancel` marks every unfinished card "Cancelled by user." (App.tsx:145) and passes the abort to the calls through the signal, apparently so that the cancelled cards stay cancelled. But the signal never reaches the SDK (services/geminiService.ts:24-25), so a call still in flight at cancel time settles normally and its patch overwrites the cancellation (App.tsx:82, 85). `SettleAfterCancelOverwrites` shows the result:
  - a success makes the card `complete` while its error text "Cancelled by user." stays set, because the completion patch keeps the fields it does not name (`ApplyPatch`);
  - a failure replaces the cancellation message.

## Model

| member | source | states |
|---|---|---|
| JsString.TrimStart | App.tsx:64 | the result is the suffix of the input after its leading whitespace; what was cut is all whitespace and the result does not start with whitespace |
| JsString.TrimEnd | App.tsx:64 | the result is the prefix of the input before its trailing whitespace; what was cut is all whitespace and the result does not end with whitespace |
| JsString.Trim | App.tsx:64 | `String.prototype.trim`, as TrimEnd after TrimStart; the Trim lemmas state what it keeps and cuts |
| JsString.IsWhitespace | App.tsx:64 | the characters `trim()` strips: ECMAScript WhiteSpace (tab, vertical tab, form feed, space, no-break space, byte-order mark and the Unicode space separators) and LineTerminator (line feed, carriage return, line and paragraph separators) |
| JsString.TrimIsCore | App.tsx:64 | `trim()` returns a slice s[i..j] of its input with only whitespace on either side |
| JsString.TrimHasNoEdgeWhitespace | App.tsx:64 | a non-empty trimmed string neither starts nor ends with whitespace |
| JsString.TrimEmptyIffBlank | App.tsx:105 | `s.trim() === ''` exactly when every character of s is whitespace |
| JsString.TrimIdempotent | App.tsx:64 | trimming a trimmed string changes nothing |
| GeminiService.FirstInlineData | services/geminiService.ts:38 | `parts.find(p => p.inlineData)`: None iff no part has inline data, else the inline data of the first part that has it |
| GeminiService.Truthy | services/geminiService.ts:30-40 | the truthiness tests of `finishReason` and `imageData`: a string is truthy iff it is present and not empty |
| GeminiService.ImageData | services/geminiService.ts:38 | the optional chain `candidate?.content?.parts?.find(p => p.inlineData)?.inlineData?.data`: None when the parts, the part with inline data or its data is missing; `GenerateImageCases` states how the result is used |
| GeminiService.InterpretResponse | services/geminiService.ts:28-44 | every failure the response checks raise is an `Error` named "Error" |
| GeminiService.GenerateImageCases | services/geminiService.ts:17-54 | case by case: no candidate, a finishReason other than empty or "STOP", missing or empty image data, a rethrown `Error`, a thrown non-Error; a success is the PNG data-URL prefix followed by non-empty data |
| GeminiService.GenerateImage | services/geminiService.ts:6-55 | `generateImage` with the SDK's result as input; `GenerateImageCases` states every outcome |
| GeminiService.SuccessCarriesFirstInlineData | services/geminiService.ts:38-44 | a successful response's image is the data of the first part that has inline data, behind the data-URL prefix |
| GeminiService.Pow2 | services/geminiService.ts:70 | `Math.pow(2, k)` by repeated doubling; `BackoffDoubles` states what the wrapper's sleeps make of it |
| GeminiService.Backoff | services/geminiService.ts:70 | the sleep before retry k + 1, 2^k × 1000 ms; `GenerateImageWithRetry` and `BackoffDoubles` state the sleeps a run makes |
| GeminiService.BackoffDoubles | services/geminiService.ts:69-72 | a run started at attempt retryCount first sleeps 2^retryCount × 1000 ms, and every later sleep is twice the one before it |
| GeminiService.AttemptOutcome | services/geminiService.ts:58-62 | one attempt: an aborted signal throws `new Error('AbortError')` (name "Error") before any call, otherwise the attempt ends as `generateImage` does; the retry lemmas state its consequences |
| GeminiService.Retryable | services/geminiService.ts:64 | the failures the wrapper retries: those whose error is not named "AbortError"; `AbortErrorIsNotRetried` and `RetriesUntilLimit` state both sides |
| GeminiService.GenerateImageWithRetry | services/geminiService.ts:57-77 | attempts retryCount, retryCount+1, … are made, with one delay of 2^k × 1000 ms before each retry; every attempt but the last failed retryably; the last succeeded, failed with name "AbortError", or had no retry left; the run settles as the last attempt did; an attempt calls the SDK iff its signal was not aborted |
| GeminiService.SdkCallsInOrder | services/geminiService.ts:57-77 | the SDK calls of a run are listed in strictly increasing attempt order; with the membership clause of the wrapper this fixes the list exactly |
| GeminiService.AbortedAttemptMakesNoCall | services/geminiService.ts:59-62 | an attempt that starts with an aborted signal never calls `generateImage` |
| GeminiService.SuccessReturnsAtOnce | services/geminiService.ts:62 | a successful attempt settles the call with no delay and no further attempt |
| GeminiService.AbortErrorIsNotRetried | services/geminiService.ts:64-66 | a failure named "AbortError" is rethrown at once, with no delay |
| GeminiService.AttemptsAreBounded | services/geminiService.ts:69-75 | with API_RETRY_LIMIT = 3 (line 4): at most 3 attempts and 3 SDK calls; the delays are a prefix of [1000, 2000] |
| GeminiService.RetriesUntilLimit | services/geminiService.ts:69-74 | when every attempt fails retryably, exactly API_RETRY_LIMIT - 1 retries are made |
| GeminiService.TwoRetriesSleep | services/geminiService.ts:70-71 | two retries sleep 1000 ms and then 2000 ms |
| GeminiService.PersistentFailure | services/geminiService.ts:68-75 | a persistently failing call sleeps [1000, 2000] and settles with the third attempt's error, unchanged |
| GeminiService.PreAttemptAbortIsRetried | services/geminiService.ts:58-66 | a signal aborted at every attempt yields three attempts, both sleeps, no SDK call, and an error named "Error" whose message is "AbortError" |
| Scheduler.FindById | App.tsx:61 | `find` by id, written once for the lookups at lines 61, 66 and 151: None iff no element has the id, else the first element that has it |
| Scheduler.InitialState | App.tsx:21-32 | the state at mount: no images, vector mode, an empty vector prompt, no prompts or outputs, the flag clear, the id counter and the active count at 0, an empty queue, no controller; `ControllerStaysLive`, `IdsStayFresh` and `CeilingHoldsWithoutReset` state that it satisfies each invariant |
| Scheduler.FindImage | App.tsx:61 | the image lookup: `FindById` over image ids |
| Scheduler.FindPrompt | App.tsx:66 | the prompt lookup: `FindById` over prompt ids |
| Scheduler.FindOutput | App.tsx:151 | the output lookup: `FindById` over output ids |
| Scheduler.UpdateOutput | App.tsx:78 | the `map` updater: same length; each output with the id is patched, every other output is kept |
| Scheduler.ApplyPatch | App.tsx:72-85 | the object spreads of the updaters (also at lines 145 and 159): each patch keeps an output's id, source image and prompt and every field it does not name, so `generating` keeps url and error, a completion keeps the error and a failure keeps the url; only the reset to `pending` clears both; `PatchKeepsUnnamedFields` states it |
| Scheduler.PatchKeepsUnnamedFields | App.tsx:72-85 | no patch changes an output's id, source image or prompt; `generating` keeps url and error, a completion keeps the error, a failure keeps the url, and the reset to `pending` (line 159) clears both |
| Scheduler.CancelOutputs | App.tsx:145 | the cancel updater: same length; pending and generating outputs fail with "Cancelled by user.", others are kept |
| Scheduler.UpdateOutputTouchesOnlyId | App.tsx:72-85 | the updaters (and the one at line 159) change only outputs with the given id and never an output's id, source image or prompt |
| Scheduler.CancelFinishesEverything | App.tsx:145 | after cancel no output is pending or generating; cancelled ones carry "Cancelled by user." and keep their image; finished ones are untouched |
| Scheduler.FilterOutId | App.tsx:169 | `filter` by id, written once for lines 169 and 187: every survivor was in the list and has another id, and every element with another id survives |
| Scheduler.FilterOutIdSplits | App.tsx:169 | the filter keeps order and multiplicity: filtering a + b is filtering a, then b, and one element is kept exactly when its id differs |
| Scheduler.FilterOutIdKeepsKeysDistinct | App.tsx:187 | a list with pairwise distinct ids keeps them distinct after the filter |
| Scheduler.RemovePromptById | App.tsx:169 | the prompt filter: `FilterOutId` over prompt ids |
| Scheduler.RemoveImageById | App.tsx:187 | the image filter: `FilterOutId` over image ids |
| Scheduler.NewImages | App.tsx:172-184 | the added images take consecutive ids from the counter, in file order |
| Scheduler.GenerateRejected | App.tsx:105-111 | generate is refused iff there is no image, or vector mode has a blank prompt, or matrix mode has no prompt; a refused generate changes nothing |
| Scheduler.GenerateSpec | App.tsx:104-138 | handleGenerate as a step; `GenerateRejected` and `GenerateLaunches` state its effect |
| Scheduler.Ready | App.tsx:105-108 | the validation of handleGenerate: at least one image, and a non-blank vector prompt in vector mode or at least one prompt in matrix mode; `GenerateRejected` states both directions |
| Scheduler.PromptsToUse | App.tsx:120 | the synthetic prompt with id -1, title "Result" and the vector prompt's text in vector mode, else the prompt list; `GenerateLaunches` states the batch built from it |
| Scheduler.GenerateLaunches | App.tsx:113-137 | an accepted generate makes \|images\| × m outputs (m prompts to use); the one at a × m + b is pending, with no image and no error, for image a and prompt b; ids run consecutively from the counter, which moves past them; the queue holds one entry per output, in output order; a fresh controller is installed, the flag set, the count reset; calls in flight and the session are unchanged |
| Scheduler.Row | App.tsx:123-134 | the outputs of the inner loop for one image; `RowAt` states them |
| Scheduler.NewOutput | App.tsx:125-132 | the output pushed for one image and prompt: the given id, the image's and the prompt's ids, no url, `pending`, no error; `RowAt` states the row built from it |
| Scheduler.Product | App.tsx:122-135 | the outputs of both loops; `ProductAt` and `ProductIds` state them |
| Scheduler.QueueOf | App.tsx:133 | one queue entry per output, same order, carrying the output's id, source image and prompt |
| Scheduler.RowAt | App.tsx:123-134 | the inner loop makes one pending output per prompt, in prompt order, with consecutive ids |
| Scheduler.ProductLength | App.tsx:122-135 | the batch has exactly \|images\| × \|promptsToUse\| outputs |
| Scheduler.ProductSlot | App.tsx:122-135 | the output for image a and prompt b sits at a × \|promptsToUse\| + b |
| Scheduler.ProductAt | App.tsx:117-135 | image-major order: the output at a × m + b is pending, with no image and no error, for image a and prompt b, with id base + a × m + b |
| Scheduler.ProductIds | App.tsx:124 | the batch's ids run consecutively from the counter's value |
| Scheduler.ResolvePromptText | App.tsx:62-68 | vector mode: the trimmed vector prompt if it is not blank, else the default; matrix mode: the text of the first prompt with the id, else "Make this image better" |
| Scheduler.CanPump | App.tsx:47 | the guard of `processQueue`: the active count below 2, a non-empty queue and a controller present, aborted or not; `PumpCharacterization` states that a pump failing it changes nothing |
| Scheduler.FirstResolvable | App.tsx:61-75 | the index of the first queued item whose source image exists; every earlier one is missing |
| Scheduler.MarkMissing | App.tsx:70-74 | the missing-source branch as the re-pump repeats it over a run of items: same length; an output named by some item becomes `error` with "Source image not found.", keeping its url, and every other output is kept |
| Scheduler.PumpSpec | App.tsx:46-79 | processQueue up to its `await`, recursive on the missing-source path; `PumpCharacterization` states it without the recursion |
| Scheduler.PumpCharacterization | App.tsx:46-79 | a pump does nothing unless below the ceiling with a non-empty queue and a controller; otherwise items with a missing source fail "Source image not found." and leave the queue, and the first resolvable item leaves the head, turns generating and is sent with the resolved prompt text, the count one higher |
| Scheduler.PumpRespectsCeiling | App.tsx:47-52 | a pump raises the count by one exactly when it dispatches a call, only below the ceiling, so it never takes a count of at most 2 above 2 |
| Scheduler.PumpTimes | App.tsx:98-100 | the effect's loop: n pumps in a row |
| Scheduler.StartEffectSpec | App.tsx:96-102 | the start effect: two pumps when the flag is set and the queue is not empty, else nothing |
| Scheduler.StartEffectFillsSlots | App.tsx:96-102 | with nothing in flight and every source present, the start effect dispatches the first min(2, \|queue\|) items in queue order |
| Scheduler.SettleCore | App.tsx:80-87 | the try/catch and the decrement after the `await`; `SettleCases` states it |
| Scheduler.SettleMessage | App.tsx:84 | the catch block's message: "Cancelled by user." for an error named "AbortError", else the error's own message; `SettleCases` states the card it produces |
| Scheduler.SettlePatch | App.tsx:82-85 | a success patches the card to `complete` with the url, a failure to `error` with the catch block's message; `SettleCases` states it |
| Scheduler.CallOutcome | App.tsx:81 | the value the `await` of `generateImageWithRetry` settles with, given what happened on each attempt |
| Scheduler.AfterSettle | App.tsx:88-92 | the rest of the finally block: clear the flag or pump again; `SettleCases` states it |
| Scheduler.SettleSpec | App.tsx:80-93 | the whole settlement of one in-flight call |
| Scheduler.SettleCases | App.tsx:80-93 | settling patches only the call's outputs: complete with the url, or error with "Cancelled by user." for a name "AbortError" and the message otherwise; the count drops by one; the flag clears iff the queue is empty and the count is then 0, else the pump runs |
| Scheduler.CancelSpec | App.tsx:140-148 | handleCancel as a step; `CancelFinishesEverything`, `CancelThenSettleGoesNegative` and `SettleAfterCancelOverwrites` state its effect |
| Scheduler.RegenerateEnqueue | App.tsx:154-160 | handleRegenerate before its `processQueue()` call; `RegenerateKnownId` states it |
| Scheduler.RegenerateSpec | App.tsx:150-162 | handleRegenerate as a step; `RegenerateUnknownId` and `RegenerateKnownId` state it |
| Scheduler.RegenerateUnknownId | App.tsx:151-152 | regenerating an unknown id changes nothing |
| Scheduler.RegenerateKnownId | App.tsx:150-162 | regenerate resets only outputs with the id to pending with no image and no error, appends one queue entry with the same source and prompt at the tail, installs a controller and sets the flag when idle, then pumps |
| Scheduler.AddPromptSpec | App.tsx:164-166 | handleAddPrompt as a step: the prompt takes the counter's id, which then moves on |
| Scheduler.RemovePromptSpec | App.tsx:168-170 | handleRemovePrompt as a step |
| Scheduler.AddImagesSpec | App.tsx:172-184 | handleAddImages as a step, with each file's payload given: `NewImages` states the ids |
| Scheduler.RemoveImageSpec | App.tsx:186-188 | handleRemoveImage as a step |
| Scheduler.ClearImagesSpec | App.tsx:190-193 | handleClearImages as a step: no images and no outputs |
| Scheduler.ModeChangeSpec | App.tsx:195-198 | handleModeChange as a step: the new mode and no outputs |
| Scheduler.SetVectorPromptSpec | App.tsx:25 | the vector prompt's setter as a step |
| Scheduler.Step | App.tsx:96-198 | the component as one state machine over its handlers, the start effect and the settlement of a call; the invariant lemmas below hold across it |
| Scheduler.PumpTimesKeepsCount | App.tsx:96-102 | repeated pumps keep the count equal to the calls in flight and within the ceiling |
| Scheduler.CeilingHoldsWithoutReset | App.tsx:47-51 | the ceiling of 2 (line 12) holds across events: every event keeps the count equal to the calls in flight and at most 2, provided cancel and generate happen only with nothing in flight |
| Scheduler.PumpKeepsIds | App.tsx:46-79 | a pump keeps every output's id, the session and the counter |
| Scheduler.PumpTimesKeepsIds | App.tsx:96-102 | the start effect keeps every output's id, the session and the counter |
| Scheduler.EnqueueKeepsIds | App.tsx:154-160 | the first half of regenerate keeps every output's id, the session and the counter |
| Scheduler.GenerateKeepsIdsFresh | App.tsx:122-136 | after a generate all ids are below the counter and no two outputs share an id |
| Scheduler.StartEffectKeepsIdsFresh | App.tsx:96-102 | the start effect keeps ids fresh |
| Scheduler.SettleKeepsIdsFresh | App.tsx:80-93 | settling keeps ids fresh |
| Scheduler.RegenerateKeepsIdsFresh | App.tsx:150-162 | regenerate keeps ids fresh |
| Scheduler.AddImagesKeepsIdsFresh | App.tsx:181-183 | added images take ids at or above the old counter and below the new one, so image ids stay below the counter and pairwise distinct |
| Scheduler.AddPromptKeepsIdsFresh | App.tsx:164-166 | a new prompt takes the counter's id, so prompt ids stay below the counter and pairwise distinct |
| Scheduler.RemovePromptKeepsIdsFresh | App.tsx:168-170 | removing a prompt keeps ids fresh and prompt ids pairwise distinct |
| Scheduler.RemoveImageKeepsIdsFresh | App.tsx:186-188 | removing an image keeps ids fresh and image ids pairwise distinct |
| Scheduler.IdsStayFresh | App.tsx:122-184 | the one counter `nextId` (line 29) feeds lines 124, 165 and 181, and every event keeps every image, prompt and output id below the counter, and no two images, no two prompts and no two outputs share an id |
| Scheduler.CancelThenSettleGoesNegative | App.tsx:140-147 | cancel sets the count to 0 with calls in flight, so the first of them to settle (its decrement at line 87) leaves the count at -1 |
| Scheduler.RegenerateAfterCancelOverlaps | App.tsx:150-161 | a regenerate after a cancel that left calls in flight dispatches a call with the count at 1 and one more call in flight |
| Scheduler.MissingSourceLeavesFlagSet | App.tsx:70-75 | an idle regenerate of an output whose image is gone leaves the flag set with an empty queue, a zero count, the output failed "Source image not found.", and a start effect that does nothing |
| Scheduler.SettleAfterCancelOverwrites | App.tsx:80-85 | a call settling after cancel overwrites the cancelled card: complete with its url while the error text stays, or its own error message |
| Scheduler.DispatchUnderLiveController | App.tsx:47-81 | a pump that dispatches a call does so under an installed controller that is not aborted, and keeps the controller live |
| Scheduler.PumpTimesKeepsControllerLive | App.tsx:96-102 | the start effect keeps the controller live |
| Scheduler.ControllerStaysLive | App.tsx:113-161 | the component starts with a live controller and every event keeps it: while the flag is set the controller is installed and not aborted, and work is queued only while the flag is set; so attempt 0 of every call, whose abort check runs inside the dispatching `processQueue` call, finds the signal not aborted |
| Scheduler.AbortedCallShowsRawMessage | App.tsx:84 | a cancel during a backoff sleep: attempts 0 and 1 fail retryably and attempt 2 finds the signal aborted; the call settles with an error named "Error" whose message is "AbortError", and its card shows "AbortError" |
| App.BatchController.constructor | App.tsx:21-32 | the component starts in vector mode with empty lists, a clear flag, counter 0, id 0 and no controller |
| App.BatchController.ProcessQueue | App.tsx:46-79 | the in-place pump leaves the object at `PumpSpec` of its old state |
| App.BatchController.Settle | App.tsx:80-93 | the code after the `await` leaves the object at `SettleSpec`, with the outcome the retry wrapper computes |
| App.BatchController.StartEffect | App.tsx:96-102 | the effect's loop leaves the object at `StartEffectSpec` |
| App.BatchController.AppendRow | App.tsx:123-134 | the inner loop appends `Row` of the image to the outputs and its queue entries to the queue, using \|promptsToUse\| ids |
| App.BatchController.BuildBatch | App.tsx:117-135 | the nested loops build exactly the image-major product and its queue, and advance the counter by its length |
| App.BatchController.HandleGenerate | App.tsx:104-138 | leaves the object at `GenerateSpec` |
| App.BatchController.HandleCancel | App.tsx:140-148 | leaves the object at `CancelSpec` |
| App.BatchController.HandleRegenerate | App.tsx:150-162 | leaves the object at `RegenerateSpec` |
| App.BatchController.HandleAddPrompt | App.tsx:164-166 | appends a prompt with the counter's id and advances the counter |
| App.BatchController.HandleRemovePrompt | App.tsx:168-170 | leaves the object at `RemovePromptSpec` |
| App.BatchController.HandleAddImages | App.tsx:172-184 | the loop gives each file the next id, then appends the new images |
| App.BatchController.HandleRemoveImage | App.tsx:186-188 | leaves the object at `RemoveImageSpec` |
| App.BatchController.HandleClearImages | App.tsx:190-193 | empties images and outputs |
| App.BatchController.HandleModeChange | App.tsx:195-198 | sets the mode and empties the outputs |
| App.BatchController.SetVectorPrompt | App.tsx:25 | replaces the vector prompt |

## Left out

- The React components under `components/` (rendering, DOM events, the progress count, Download All, form handling): presentation only.
- Theme persistence through `localStorage` and `document.body.className` (App.tsx:34-44): browser I/O.
- The FileReader decoding in `handleAddImages`: file I/O. The handler receives each file's base64 payload in order, and the `File` handle is not kept.
- The GoogleGenAI SDK call, the API key, the model name, the request config and the image MIME type (services/geminiService.ts:7-26): a foreign library and the network. Each attempt's SDK result is an input.
- `setTimeout` sleeps: the retry wrapper returns the delays it would have slept instead of waiting.
- `console.log`, `console.error` and `alert`: output only.
- React's scheduling. State updaters apply at once and in order. The effect on `[isGenerating, processQueue]` runs only when the `StartEffect` event is given. The session a closure captured is passed to every pump, settle and regenerate.
- A `handleGenerate` while a batch is already running: it does not set a changed flag, so the effect does not re-run, and the model leaves that to the event order.
- React StrictMode's double invocation of updaters: development-only.
- The unreachable `if (!item)` branch of `processQueue` (App.tsx:54-57): the guard has already checked that the queue is not empty.
- GeminiService.GenerateImageWithRetry: requires at least API_RETRY_LIMIT entries in the attempt oracle, so that every attempt the wrapper may make has an entry.
- Scheduler.SettleSpec: whether the signal is aborted at attempts 1 and 2 is an input of the settle event. It depends on whether a cancel lands during a backoff sleep, and the event order does not record when the sleeps end. Attempt 0 runs inside the dispatching pump, and `Step` requires it unaborted, as `ControllerStaysLive` shows it is.
- Scheduler.AddImagesSpec: handleAddImages is one atomic step. In the source each file is read behind an `await` (App.tsx:175-180), so other handlers can run between two files and take ids in between; the "consecutive ids" of `NewImages` holds only when nothing interleaves. A rejected read leaves the ids already taken unused and adds no image; the model has no failed read.
- Scheduler.CeilingHoldsWithoutReset: the ceiling is proved only for runs in which cancel and generate happen with nothing in flight, because the code itself breaks it otherwise (see above).
- App.BatchController.HandleGenerate: the loops count ids in a local that is written back to `nextId` once they finish; nothing awaits in between, so the final state is the same.
- App.BatchController.HandleRegenerate: reads the current outputs and flag, not possibly stale ones captured by its closure.
