/**
 * The remote-call adapter and its retry wrapper (services/geminiService.ts).
 *
 * The SDK call is not modelled: each attempt's SDK result is an input (an
 * oracle), and the sleeps between attempts are returned as the list of
 * delays that would have been waited for. A JavaScript `Error` keeps its
 * `name` and its `message` apart, because the code tests the name for
 * cancellation while `new Error('AbortError')` sets only the message.
 */
module GeminiService {
  import opened Types

  /** Total number of attempts `generateImageWithRetry` may make. */
  const API_RETRY_LIMIT: nat := 3

  const NO_CANDIDATES := "API returned no candidates."
  const GENERATION_FAILED := "Generation failed: "
  const NO_IMAGE_DATA := "No image data in API response."
  const UNKNOWN_ERROR := "An unknown error occurred during image generation."
  const DATA_URL_PREFIX := "data:image/png;base64,"

  /** An `Error` object: `new Error(m)` has name "Error" and message m. */
  datatype JsError = JsError(name: string, message: string)

  function NewError(message: string): JsError {
    JsError("Error", message)
  }

  /** A thrown JavaScript value: an `Error` instance, or anything else. */
  datatype Thrown = ThrownError(err: JsError) | ThrownNonError

  /** The parts of a `GenerateContentResponse` the adapter reads.
      `parts` is None when the candidate has no `content` or no `parts`. */
  datatype InlineData = InlineData(data: Option<string>)
  datatype Part = Part(inlineData: Option<InlineData>)
  datatype Candidate = Candidate(finishReason: Option<string>, parts: Option<seq<Part>>)
  datatype Response = Response(candidates: Option<seq<Candidate>>)

  /** What one SDK call did: returned a response, or threw. */
  datatype SdkOutcome = Returned(response: Response) | Threw(thrown: Thrown)

  /** A settled promise of `generateImage`/`generateImageWithRetry`. */
  datatype Outcome = Success(url: string) | Failure(err: JsError)

  /** JavaScript truthiness of an optional string: present and non-empty. */
  predicate Truthy(s: Option<string>) {
    s.Some? && s.value != ""
  }

  /** `parts.find(p => p.inlineData)?.inlineData`: the inline data of the
      first part that has any. */
  function FirstInlineData(parts: seq<Part>): (r: Option<InlineData>)
    ensures r.None? <==> forall i :: 0 <= i < |parts| ==> parts[i].inlineData.None?
    ensures r.Some? ==> exists k :: 0 <= k < |parts| && parts[k].inlineData == r
                                 && forall i :: 0 <= i < k ==> parts[i].inlineData.None?
  {
    if parts == [] then None
    else if parts[0].inlineData.Some? then parts[0].inlineData
    else
      var r := FirstInlineData(parts[1..]);
      assert forall i :: 1 <= i < |parts| ==> parts[i] == parts[1..][i - 1];
      r
  }

  /** `candidate?.content?.parts?.find(p => p.inlineData)?.inlineData?.data`. */
  function ImageData(c: Candidate): Option<string> {
    if c.parts.None? then None
    else
      match FirstInlineData(c.parts.value)
      case None => None
      case Some(d) => d.data
  }

  /** The checks `generateImage` makes on a response, in order. */
  function InterpretResponse(resp: Response): (r: Outcome)
    ensures r.Failure? ==> r.err.name == "Error"
  {
    if resp.candidates.None? || resp.candidates.value == [] then
      Failure(NewError(NO_CANDIDATES))
    else
      var c := resp.candidates.value[0];
      if Truthy(c.finishReason) && c.finishReason.value != "STOP" then
        Failure(NewError(GENERATION_FAILED + c.finishReason.value))
      else if !Truthy(ImageData(c)) then
        Failure(NewError(NO_IMAGE_DATA))
      else
        Success(DATA_URL_PREFIX + ImageData(c).value)
  }

  /** `generateImage`: an `Error` thrown by the SDK or by the checks is
      rethrown as it is; any other thrown value becomes a fresh `Error`. */
  function GenerateImage(sdk: SdkOutcome): Outcome {
    match sdk
    case Returned(resp) => InterpretResponse(resp)
    case Threw(ThrownError(e)) => Failure(e)
    case Threw(ThrownNonError) => Failure(NewError(UNKNOWN_ERROR))
  }

  /** Everything the adapter can settle with, stated case by case. */
  lemma GenerateImageCases(sdk: SdkOutcome)
    ensures sdk.Returned? && (sdk.response.candidates.None? || sdk.response.candidates.value == []) ==>
      GenerateImage(sdk) == Failure(JsError("Error", NO_CANDIDATES))
    ensures sdk.Returned? && sdk.response.candidates.Some? && sdk.response.candidates.value != [] ==>
      var c := sdk.response.candidates.value[0];
      && (c.finishReason.Some? && c.finishReason.value !in {"", "STOP"} ==>
            GenerateImage(sdk) == Failure(JsError("Error", GENERATION_FAILED + c.finishReason.value)))
      && (c.finishReason.None? || c.finishReason.value in {"", "STOP"} ==>
            match ImageData(c)
            case Some(d) => GenerateImage(sdk) == (if d == "" then Failure(JsError("Error", NO_IMAGE_DATA))
                                                   else Success(DATA_URL_PREFIX + d))
            case None => GenerateImage(sdk) == Failure(JsError("Error", NO_IMAGE_DATA)))
    ensures sdk == Threw(ThrownNonError) ==> GenerateImage(sdk) == Failure(JsError("Error", UNKNOWN_ERROR))
    ensures sdk.Threw? && sdk.thrown.ThrownError? ==> GenerateImage(sdk) == Failure(sdk.thrown.err)
    ensures GenerateImage(sdk).Success? ==>
      (|GenerateImage(sdk).url| > |DATA_URL_PREFIX| && GenerateImage(sdk).url[..|DATA_URL_PREFIX|] == DATA_URL_PREFIX)
  {
  }

  /** The image in a successful response is the data of the first part
      carrying inline data, behind the PNG data-URL prefix. */
  lemma SuccessCarriesFirstInlineData(resp: Response)
    requires InterpretResponse(resp).Success?
    ensures resp.candidates.Some? && resp.candidates.value != []
    ensures var c := resp.candidates.value[0];
      && c.parts.Some?
      && exists k :: 0 <= k < |c.parts.value|
           && (forall i :: 0 <= i < k ==> c.parts.value[i].inlineData.None?)
           && c.parts.value[k].inlineData.Some?
           && c.parts.value[k].inlineData.value.data.Some?
           && InterpretResponse(resp).url == DATA_URL_PREFIX + c.parts.value[k].inlineData.value.data.value
  {
    var c := resp.candidates.value[0];
    var d := FirstInlineData(c.parts.value);
    assert d.Some?;
  }

  /** 2^k, the backoff factor of `Math.pow(2, retryCount)`. */
  function Pow2(k: nat): nat {
    if k == 0 then 1 else 2 * Pow2(k - 1)
  }

  /** Backoff before attempt k + 1, in milliseconds. */
  function Backoff(k: nat): nat {
    Pow2(k) * 1000
  }

  /** What the environment does on one attempt: whether the signal is
      already aborted when the attempt starts, and what the SDK call would
      do if it were made. */
  datatype Attempt = Attempt(signalAborted: bool, sdk: SdkOutcome)

  /** A whole `generateImageWithRetry` call: how it settles, the delays it
      sleeps, and the attempt numbers at which it called `generateImage`. */
  datatype RetryRun = RetryRun(outcome: Outcome, delays: seq<nat>, sdkCalls: seq<nat>)

  /** How one attempt ends. An already aborted signal throws
      `new Error('AbortError')`, whose name is "Error", before any call. */
  function AttemptOutcome(a: Attempt): Outcome {
    if a.signalAborted then Failure(NewError("AbortError")) else GenerateImage(a.sdk)
  }

  /** A failure the wrapper retries: anything not named "AbortError". */
  predicate Retryable(o: Outcome) {
    o.Failure? && o.err.name != "AbortError"
  }

  predicate Increasing(xs: seq<nat>) {
    forall i, j :: 0 <= i < j < |xs| ==> xs[i] < xs[j]
  }

  /** `generateImageWithRetry(…, retryCount)`, with `attempts[n]` describing
      attempt number n. The contract characterises the run independently of
      the recursion: attempts retryCount, retryCount + 1, … are made, one
      per delay plus the last; every attempt but the last failed retryably;
      the last is the first that succeeded, was not retryable, or had no
      retry left; the run settles exactly as the last attempt did; and the
      SDK was called on exactly the attempts whose signal was not yet
      aborted (SdkCallsInOrder adds that it was called in attempt order). */
  function GenerateImageWithRetry(attempts: seq<Attempt>, retryCount: nat): (r: RetryRun)
    requires API_RETRY_LIMIT <= |attempts| && retryCount < |attempts|
    ensures var last := retryCount + |r.delays|;
      && last < |attempts|
      && (retryCount < API_RETRY_LIMIT ==> last < API_RETRY_LIMIT)
      && (retryCount >= API_RETRY_LIMIT ==> r.delays == [])
      && (forall k :: 0 <= k < |r.delays| ==> r.delays[k] == Backoff(retryCount + k))
      && (forall n :: retryCount <= n < last ==> Retryable(AttemptOutcome(attempts[n])))
      && (!Retryable(AttemptOutcome(attempts[last])) || last >= API_RETRY_LIMIT - 1)
      && r.outcome == AttemptOutcome(attempts[last])
      && (forall n :: n in r.sdkCalls <==> retryCount <= n <= last && !attempts[n].signalAborted)
      && |r.sdkCalls| <= |r.delays| + 1
    decreases API_RETRY_LIMIT - retryCount
  {
    var a := attempts[retryCount];
    var res := AttemptOutcome(a);
    var called := if a.signalAborted then [] else [retryCount];
    if res.Success? then
      RetryRun(res, [], called)
    else if res.err.name == "AbortError" then
      RetryRun(res, [], called)
    else if retryCount < API_RETRY_LIMIT - 1 then
      var rest := GenerateImageWithRetry(attempts, retryCount + 1);
      RetryRun(rest.outcome, [Backoff(retryCount)] + rest.delays, called + rest.sdkCalls)
    else
      RetryRun(res, [], called)
  }

  /** The SDK calls of a run are listed in attempt order, each once; with
      the membership clause of GenerateImageWithRetry this fixes the list. */
  lemma {:induction false} SdkCallsInOrder(attempts: seq<Attempt>, retryCount: nat)
    requires API_RETRY_LIMIT <= |attempts| && retryCount < |attempts|
    ensures Increasing(GenerateImageWithRetry(attempts, retryCount).sdkCalls)
    decreases API_RETRY_LIMIT - retryCount
  {
    var a := attempts[retryCount];
    var res := AttemptOutcome(a);
    if res.Failure? && res.err.name != "AbortError" && retryCount < API_RETRY_LIMIT - 1 {
      var rest := GenerateImageWithRetry(attempts, retryCount + 1);
      SdkCallsInOrder(attempts, retryCount + 1);
      assert forall x :: x in rest.sdkCalls ==> retryCount < x;
      PrependIncreasing(if a.signalAborted then [] else [retryCount], retryCount, rest.sdkCalls);
    }
  }

  /** Putting an attempt number in front of later ones keeps the order. */
  lemma PrependIncreasing(called: seq<nat>, n: nat, rest: seq<nat>)
    requires called == [] || called == [n]
    requires Increasing(rest) && forall x :: x in rest ==> n < x
    ensures Increasing(called + rest)
  {
    forall i, j | 0 <= i < j < |called + rest|
      ensures (called + rest)[i] < (called + rest)[j]
    {
      assert (called + rest)[j] == rest[j - |called|] && rest[j - |called|] in rest;
      if i >= |called| {
        assert (called + rest)[i] == rest[i - |called|];
      }
    }
  }

  /** An attempt made while the signal is already aborted never calls
      `generateImage`, whatever the SDK would have done. */
  lemma AbortedAttemptMakesNoCall(attempts: seq<Attempt>, n: nat)
    requires API_RETRY_LIMIT <= |attempts| && n < |attempts|
    requires attempts[n].signalAborted
    ensures n !in GenerateImageWithRetry(attempts, 0).sdkCalls
  {
  }

  /** A first attempt that succeeds settles the call at once: no delay, no
      further attempt. */
  lemma SuccessReturnsAtOnce(attempts: seq<Attempt>, retryCount: nat)
    requires API_RETRY_LIMIT <= |attempts| && retryCount < |attempts|
    requires !attempts[retryCount].signalAborted && GenerateImage(attempts[retryCount].sdk).Success?
    ensures GenerateImageWithRetry(attempts, retryCount)
         == RetryRun(GenerateImage(attempts[retryCount].sdk), [], [retryCount])
  {
  }

  /** A failure named "AbortError" is rethrown at once, without a delay. */
  lemma AbortErrorIsNotRetried(attempts: seq<Attempt>, retryCount: nat, e: JsError)
    requires API_RETRY_LIMIT <= |attempts| && retryCount < |attempts|
    requires !attempts[retryCount].signalAborted && GenerateImage(attempts[retryCount].sdk) == Failure(e)
    requires e.name == "AbortError"
    ensures GenerateImageWithRetry(attempts, retryCount) == RetryRun(Failure(e), [], [retryCount])
  {
  }

  /** No call makes more than API_RETRY_LIMIT attempts, so it sleeps at most
      API_RETRY_LIMIT - 1 times, for 1000 ms and then 2000 ms. */
  lemma AttemptsAreBounded(attempts: seq<Attempt>)
    requires API_RETRY_LIMIT <= |attempts|
    ensures var r := GenerateImageWithRetry(attempts, 0);
      && |r.delays| < API_RETRY_LIMIT
      && r.delays <= [1000, 2000]
      && |r.sdkCalls| <= API_RETRY_LIMIT
  {
    var r := GenerateImageWithRetry(attempts, 0);
    assert Backoff(0) == 1000 && Backoff(1) == 2000;
    if |r.delays| == 2 {
      assert r.delays == [r.delays[0], r.delays[1]];
    } else if |r.delays| == 1 {
      assert r.delays == [r.delays[0]];
    }
  }

  /** The backoff is exponential: a run started at attempt `retryCount`
      first sleeps 2^retryCount seconds, and each later sleep is twice the
      one before it. */
  lemma BackoffDoubles(attempts: seq<Attempt>, retryCount: nat)
    requires API_RETRY_LIMIT <= |attempts| && retryCount < |attempts|
    ensures var r := GenerateImageWithRetry(attempts, retryCount);
      && (|r.delays| > 0 ==> r.delays[0] == 1000 * Pow2(retryCount))
      && (forall k :: 0 < k < |r.delays| ==> r.delays[k] == 2 * r.delays[k - 1])
  {
    var r := GenerateImageWithRetry(attempts, retryCount);
    forall k | 0 < k < |r.delays|
      ensures r.delays[k] == 2 * r.delays[k - 1]
    {
      assert Pow2(retryCount + k) == 2 * Pow2(retryCount + k - 1);
    }
  }

  /** A call whose every attempt fails retryably is attempted exactly
      API_RETRY_LIMIT times, sleeps 1000 ms and then 2000 ms, and settles with
      the last attempt's error, unchanged. */
  lemma PersistentFailure(attempts: seq<Attempt>)
    requires API_RETRY_LIMIT <= |attempts|
    requires forall n :: 0 <= n < API_RETRY_LIMIT ==> Retryable(AttemptOutcome(attempts[n]))
    ensures var r := GenerateImageWithRetry(attempts, 0);
      && r.delays == [1000, 2000]
      && r.outcome == AttemptOutcome(attempts[2])
  {
    RetriesUntilLimit(attempts);
    TwoRetriesSleep(attempts);
  }

  lemma RetriesUntilLimit(attempts: seq<Attempt>)
    requires API_RETRY_LIMIT <= |attempts|
    requires forall n :: 0 <= n < API_RETRY_LIMIT ==> Retryable(AttemptOutcome(attempts[n]))
    ensures |GenerateImageWithRetry(attempts, 0).delays| == API_RETRY_LIMIT - 1
  {
    var r := GenerateImageWithRetry(attempts, 0);
    assert |r.delays| < API_RETRY_LIMIT;
    assert Retryable(AttemptOutcome(attempts[|r.delays|]));
  }

  lemma TwoRetriesSleep(attempts: seq<Attempt>)
    requires API_RETRY_LIMIT <= |attempts|
    requires |GenerateImageWithRetry(attempts, 0).delays| == 2
    ensures GenerateImageWithRetry(attempts, 0).delays == [1000, 2000]
  {
    var r := GenerateImageWithRetry(attempts, 0);
    assert Backoff(0) == 1000 && Backoff(1) == 2000;
    assert r.delays == [r.delays[0], r.delays[1]];
  }

  /** The pre-attempt abort check throws `new Error('AbortError')`: its
      message is "AbortError" but its name is "Error", so the wrapper treats
      it as an ordinary failure. A signal that is aborted before every
      attempt still yields three attempts and both backoff sleeps, never
      reaches the SDK, and settles with an error NAMED "Error". */
  lemma PreAttemptAbortIsRetried(attempts: seq<Attempt>)
    requires API_RETRY_LIMIT <= |attempts|
    requires forall n :: 0 <= n < API_RETRY_LIMIT ==> attempts[n].signalAborted
    ensures GenerateImageWithRetry(attempts, 0)
         == RetryRun(Failure(JsError("Error", "AbortError")), [1000, 2000], [])
  {
    var r := GenerateImageWithRetry(attempts, 0);
    PersistentFailure(attempts);
    assert forall n :: n !in r.sdkCalls;
    assert r.sdkCalls == [];
  }
}
