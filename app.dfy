/**
 * The App component's scheduler state, updated in place as App.tsx does:
 * the refs `requestQueue`, `activeRequests`, `nextId` and
 * `abortController`, the React state it keeps (session lists, outputs,
 * `isGenerating`), and the calls whose promises are still pending. Every
 * handler is proved to take the state exactly where the step function of
 * module Scheduler says.
 */
module App {
  import opened Types
  import opened JsString
  import opened Scheduler
  import GeminiService

  class BatchController {
    // React state
    var images: seq<UploadedImage>
    var mode: Mode
    var vectorPrompt: string
    var prompts: seq<Prompt>
    var outputs: seq<OutputItem>
    var isGenerating: bool
    // refs
    var nextId: nat
    var requestQueue: seq<QueueItem>
    var activeRequests: int
    var abortController: Controller
    // the pending `generateImageWithRetry` promises
    var inFlight: seq<Call>

    function CurrentSession(): Session
      reads this
    {
      Session(images, mode, vectorPrompt, prompts)
    }

    function Snapshot(): State
      reads this
    {
      State(CurrentSession(), outputs, requestQueue, activeRequests, inFlight, isGenerating, abortController, nextId)
    }

    constructor ()
      ensures Snapshot() == InitialState()
    {
      images, mode, vectorPrompt, prompts := [], Vector, "", [];
      outputs, isGenerating := [], false;
      nextId, requestQueue, activeRequests, abortController := 0, [], 0, Absent;
      inFlight := [];
    }

    /** processQueue, up to its `await`; `s` is the session its closure read. */
    method ProcessQueue(s: Session)
      modifies this
      ensures Snapshot() == PumpSpec(old(Snapshot()), s)
      decreases |requestQueue|
    {
      if activeRequests >= API_CONCURRENCY_LIMIT || |requestQueue| == 0 || abortController.Absent? {
        return;
      }
      ghost var st := Snapshot();
      activeRequests := activeRequests + 1;
      var item := requestQueue[0];
      requestQueue := requestQueue[1..];
      ghost var taken := st.(active := st.active + 1, queue := st.queue[1..]);
      assert Snapshot() == taken;

      var sourceImage := FindImage(s.images, item.sourceImageId);
      var promptText := ResolvePromptText(s, item.promptId);

      if sourceImage.None? {
        outputs := UpdateOutput(outputs, item.outputId, ToError(SOURCE_NOT_FOUND));
        activeRequests := activeRequests - 1;
        ProcessQueue(s);
        return;
      }

      outputs := UpdateOutput(outputs, item.outputId, ToGenerating);
      inFlight := inFlight + [Call(item.outputId, sourceImage.value.base64Data, promptText)];
    }

    /** The code after the `await` of in-flight call number k: `attempts`
        says what the remote service did on each attempt of that call. */
    method Settle(k: nat, attempts: seq<GeminiService.Attempt>, s: Session)
      requires k < |inFlight| && GeminiService.API_RETRY_LIMIT <= |attempts|
      modifies this
      ensures Snapshot() == SettleSpec(old(Snapshot()), k, CallOutcome(attempts), s)
    {
      var outputId := inFlight[k].outputId;
      var run := GeminiService.GenerateImageWithRetry(attempts, 0);
      match run.outcome {
        case Success(imageUrl) =>
          outputs := UpdateOutput(outputs, outputId, ToComplete(imageUrl));
        case Failure(error) =>
          var errorMessage := if error.name == "AbortError" then CANCELLED else error.message;
          outputs := UpdateOutput(outputs, outputId, ToError(errorMessage));
      }
      inFlight := RemoveAt(inFlight, k);
      activeRequests := activeRequests - 1;
      if |requestQueue| == 0 && activeRequests == 0 {
        isGenerating := false;
      } else {
        ProcessQueue(s);
      }
    }

    /** The effect on [isGenerating, processQueue]. */
    method StartEffect(s: Session)
      modifies this
      ensures Snapshot() == StartEffectSpec(old(Snapshot()), s)
    {
      if isGenerating && |requestQueue| > 0 {
        for i := 0 to API_CONCURRENCY_LIMIT
          invariant Snapshot() == PumpTimes(old(Snapshot()), s, i)
        {
          ProcessQueue(s);
        }
      }
    }

    /** The inner loop of handleGenerate: one output and one queue entry per prompt for a single image. */
    static method AppendRow(image: UploadedImage, promptsToUse: seq<Prompt>,
                            outs: seq<OutputItem>, queue: seq<QueueItem>, first: nat)
      returns (newOutputs: seq<OutputItem>, newQueue: seq<QueueItem>, next: nat)
      requires queue == QueueOf(outs)
      ensures newOutputs == outs + Row(image, promptsToUse, first)
      ensures newQueue == QueueOf(newOutputs)
      ensures next == first + |promptsToUse|
    {
      newOutputs, newQueue, next := outs, queue, first;
      for j := 0 to |promptsToUse|
        invariant newOutputs == outs + Row(image, promptsToUse[..j], first)
        invariant newQueue == QueueOf(newOutputs)
        invariant next == first + j
      {
        var prompt := promptsToUse[j];
        var outputId := next;
        next := next + 1;
        var o := OutputItem(outputId, image.id, prompt.id, None, Pending, None);
        assert newOutputs + [o] == outs + Row(image, promptsToUse[..j + 1], first) by {
          RowStep(image, promptsToUse, j, first);
          RowAt(image, promptsToUse[..j], first);
        }
        assert newQueue + [QueueItem(outputId, image.id, prompt.id)] == QueueOf(newOutputs + [o]) by {
          QueueOfAppend(newOutputs, o);
        }
        newOutputs := newOutputs + [o];
        newQueue := newQueue + [QueueItem(outputId, image.id, prompt.id)];
      }
      assert promptsToUse[..|promptsToUse|] == promptsToUse;
    }

    /** The nested loops of handleGenerate: every image paired with every prompt, ids counting up from firstId. */
    static method BuildBatch(uploaded: seq<UploadedImage>, promptsToUse: seq<Prompt>, firstId: nat)
      returns (newOutputs: seq<OutputItem>, newQueue: seq<QueueItem>, next: nat)
      ensures newOutputs == Product(uploaded, promptsToUse, firstId)
      ensures newQueue == QueueOf(newOutputs)
      ensures next == firstId + |newOutputs|
    {
      newOutputs, newQueue, next := [], [], firstId;
      for i := 0 to |uploaded|
        invariant newOutputs == Product(uploaded[..i], promptsToUse, firstId)
        invariant newQueue == QueueOf(newOutputs)
        invariant next == firstId + |newOutputs|
      {
        RowAt(uploaded[i], promptsToUse, next);
        newOutputs, newQueue, next := AppendRow(uploaded[i], promptsToUse, newOutputs, newQueue, next);
        assert newOutputs == Product(uploaded[..i + 1], promptsToUse, firstId) by {
          ProductStep(uploaded, promptsToUse, i, firstId);
        }
      }
      assert uploaded[..|uploaded|] == uploaded;
    }

    /** handleGenerate; the `alert` on rejected input is left out. */
    method HandleGenerate()
      modifies this
      ensures Snapshot() == GenerateSpec(old(Snapshot()))
    {
      ghost var st := Snapshot();
      // isVectorReady || isMatrixReady, with at least one image
      if !Ready(CurrentSession()) {
        return;
      }

      var session := CurrentSession();
      abortController := Present(false);
      isGenerating := true;
      activeRequests := 0;
      ghost var launched := st.(controller := Present(false), isGenerating := true, active := 0);
      assert Snapshot() == launched;

      var promptsToUse := PromptsToUse(session);
      var newOutputs, newQueue, next := BuildBatch(session.images, promptsToUse, nextId);
      nextId := next;
      outputs := newOutputs;
      requestQueue := newQueue;
      assert Snapshot() == launched.(outputs := newOutputs, queue := newQueue, nextId := next);
    }

    method HandleCancel()
      modifies this
      ensures Snapshot() == CancelSpec(old(Snapshot()))
    {
      if abortController.Present? {
        abortController := Present(true);
      }
      requestQueue := [];
      outputs := CancelOutputs(outputs);
      isGenerating := false;
      activeRequests := 0;
    }

    /** handleRegenerate; its `processQueue` closure reads `s`. */
    method HandleRegenerate(outputId: int, s: Session)
      modifies this
      ensures Snapshot() == RegenerateSpec(old(Snapshot()), outputId, s)
    {
      ghost var st := Snapshot();
      var output := FindOutput(outputs, outputId);
      if output.None? {
        return;
      }
      var o := output.value;
      var controller := if isGenerating then abortController else Present(false);
      RegenerateFound(st, outputId, s);
      abortController, isGenerating := controller, true;
      ghost var marked := st.(controller := controller, isGenerating := true);
      assert Snapshot() == marked;
      outputs := UpdateOutput(outputs, outputId, ToPending);
      requestQueue := requestQueue + [QueueItem(o.id, o.sourceImageId, o.promptId)];
      assert Snapshot() == marked.(outputs := outputs, queue := requestQueue);
      ProcessQueue(s);
    }

    method HandleAddPrompt(title: string, text: string)
      modifies this
      ensures Snapshot() == AddPromptSpec(old(Snapshot()), title, text)
    {
      prompts := prompts + [Prompt(nextId, title, text)];
      nextId := nextId + 1;
    }

    method HandleRemovePrompt(id: int)
      modifies this
      ensures Snapshot() == RemovePromptSpec(old(Snapshot()), id)
    {
      prompts := RemovePromptById(prompts, id);
    }

    /** handleAddImages with the files already read: `data` holds each
        file's base64 payload, in order. */
    method HandleAddImages(data: seq<string>)
      modifies this
      ensures Snapshot() == AddImagesSpec(old(Snapshot()), data)
    {
      var newImages: seq<UploadedImage> := [];
      for i := 0 to |data|
        invariant newImages == NewImages(data[..i], old(nextId))
        invariant nextId == old(nextId) + i
        invariant Snapshot() == old(Snapshot()).(nextId := nextId)
      {
        assert data[..i + 1][..i] == data[..i];
        newImages := newImages + [UploadedImage(nextId, data[i])];
        nextId := nextId + 1;
      }
      assert data[..|data|] == data;
      images := images + newImages;
    }

    method HandleRemoveImage(id: int)
      modifies this
      ensures Snapshot() == RemoveImageSpec(old(Snapshot()), id)
    {
      images := RemoveImageById(images, id);
    }

    method HandleClearImages()
      modifies this
      ensures Snapshot() == ClearImagesSpec(old(Snapshot()))
    {
      images := [];
      outputs := [];
    }

    method HandleModeChange(newMode: Mode)
      modifies this
      ensures Snapshot() == ModeChangeSpec(old(Snapshot()), newMode)
    {
      mode := newMode;
      outputs := [];
    }

    method SetVectorPrompt(text: string)
      modifies this
      ensures Snapshot() == SetVectorPromptSpec(old(Snapshot()), text)
    {
      vectorPrompt := text;
    }
  }
}
