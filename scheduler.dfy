/**
 * The batch controller and work-queue scheduler of App.tsx, as pure
 * functions on a snapshot of its state. Each handler of the component is a
 * step function from one `State` to the next; the class in module App runs
 * the same steps in place and is proved equal to them.
 *
 * Overlapping network waits need no concurrency here: a dispatched call
 * stays in `inFlight` until an explicit settle event, and the environment
 * picks which in-flight call settles next. Every pump takes the session
 * (images, mode, prompts) that its `processQueue` closure reads.
 */
module Scheduler {
  import opened Types
  import opened JsString
  import GeminiService

  const API_CONCURRENCY_LIMIT: nat := 2
  const DEFAULT_PROMPT_TEXT := "Make this image better"
  const CANCELLED := "Cancelled by user."
  const SOURCE_NOT_FOUND := "Source image not found."
  /** Id of the synthetic prompt that stands for the vector prompt. */
  const VECTOR_PROMPT_ID := -1

  /** RequestQueueItem: a reference triple, not a copy of the output. */
  datatype QueueItem = QueueItem(outputId: int, sourceImageId: int, promptId: int)

  /** `abortController.current`: null, or a controller that may be aborted. */
  datatype Controller = Absent | Present(aborted: bool)

  /** The component state a `processQueue` closure captures. */
  datatype Session = Session(images: seq<UploadedImage>, mode: Mode, vectorPrompt: string, prompts: seq<Prompt>)

  /** A dispatched `generateImageWithRetry` call whose promise has not settled. */
  datatype Call = Call(outputId: int, base64Data: string, promptText: string)

  /** Everything the component keeps: React state (session, outputs,
      isGenerating), the refs (queue, active, controller, nextId), and the
      pending calls. `active` is an `int`: nothing keeps it non-negative. */
  datatype State = State(
    session: Session,
    outputs: seq<OutputItem>,
    queue: seq<QueueItem>,
    active: int,
    inFlight: seq<Call>,
    isGenerating: bool,
    controller: Controller,
    nextId: nat)

  function InitialState(): State {
    State(Session([], Vector, "", []), [], [], 0, [], false, Absent, 0)
  }

  // ---------------------------------------------------------------------
  // Lookups (`Array.prototype.find` by id)
  // ---------------------------------------------------------------------

  /** `xs.find(x => key(x) === id)`: the first element whose key is `id`. */
  function FindById<T>(xs: seq<T>, key: T -> int, id: int): (r: Option<T>)
    ensures r.None? <==> forall i :: 0 <= i < |xs| ==> key(xs[i]) != id
    ensures r.Some? ==> exists k :: 0 <= k < |xs| && xs[k] == r.value && key(r.value) == id
                                 && forall i :: 0 <= i < k ==> key(xs[i]) != id
  {
    if xs == [] then None
    else if key(xs[0]) == id then Some(xs[0])
    else
      assert forall i :: 1 <= i < |xs| ==> xs[i] == xs[1..][i - 1];
      FindById(xs[1..], key, id)
  }

  function ImageId(m: UploadedImage): int { m.id }
  function PromptId(p: Prompt): int { p.id }
  function OutputId(o: OutputItem): int { o.id }

  function FindImage(images: seq<UploadedImage>, id: int): Option<UploadedImage> {
    FindById(images, ImageId, id)
  }

  function FindPrompt(prompts: seq<Prompt>, id: int): Option<Prompt> {
    FindById(prompts, PromptId, id)
  }

  function FindOutput(outputs: seq<OutputItem>, id: int): Option<OutputItem> {
    FindById(outputs, OutputId, id)
  }

  // ---------------------------------------------------------------------
  // The `setOutputs` updaters
  // ---------------------------------------------------------------------

  /** The object spreads the handlers apply to one output. Each keeps the
      fields it does not name: a completion keeps `error`, a failure keeps
      `imageUrl`. */
  datatype Patch = ToGenerating | ToComplete(url: string) | ToError(message: string) | ToPending

  function ApplyPatch(o: OutputItem, p: Patch): OutputItem {
    match p
    case ToGenerating => o.(status := Generating)
    case ToComplete(url) => o.(status := Complete, imageUrl := Some(url))
    case ToError(m) => o.(status := Error, error := Some(m))
    case ToPending => o.(status := Pending, imageUrl := None, error := None)
  }

  /** A patch never changes an output's identity, and keeps the fields it
      does not name: `generating` keeps the url and the error, a completion
      keeps the error, a failure keeps the url. Only the reset to `pending`
      clears both. */
  lemma PatchKeepsUnnamedFields(o: OutputItem, p: Patch)
    ensures var r := ApplyPatch(o, p);
      && r.id == o.id && r.sourceImageId == o.sourceImageId && r.promptId == o.promptId
      && (p.ToGenerating? ==> r.imageUrl == o.imageUrl && r.error == o.error)
      && (p.ToComplete? ==> r.error == o.error)
      && (p.ToError? ==> r.imageUrl == o.imageUrl)
      && (p.ToPending? ==> r.imageUrl == None && r.error == None)
  {
  }

  /** `prev.map(o => o.id === id ? {...o, …} : o)`. */
  function UpdateOutput(os: seq<OutputItem>, id: int, p: Patch): (r: seq<OutputItem>)
    ensures |r| == |os|
    ensures forall i :: 0 <= i < |os| ==> r[i] == if os[i].id == id then ApplyPatch(os[i], p) else os[i]
  {
    if os == [] then []
    else [if os[0].id == id then ApplyPatch(os[0], p) else os[0]] + UpdateOutput(os[1..], id, p)
  }

  predicate Unfinished(o: OutputItem) {
    o.status == Pending || o.status == Generating
  }

  /** The cancel updater: every pending or generating output fails with
      "Cancelled by user.", the others are kept. */
  function CancelOutputs(os: seq<OutputItem>): (r: seq<OutputItem>)
    ensures |r| == |os|
    ensures forall i :: 0 <= i < |os| ==> r[i] == if Unfinished(os[i]) then ApplyPatch(os[i], ToError(CANCELLED)) else os[i]
  {
    if os == [] then []
    else [if Unfinished(os[0]) then ApplyPatch(os[0], ToError(CANCELLED)) else os[0]] + CancelOutputs(os[1..])
  }

  /** Only the outputs with the given id change, and no output's identity
      (id, source image, prompt) changes. */
  lemma UpdateOutputTouchesOnlyId(os: seq<OutputItem>, id: int, p: Patch)
    ensures var r := UpdateOutput(os, id, p);
      && |r| == |os|
      && (forall i :: 0 <= i < |os| && os[i].id != id ==> r[i] == os[i])
      && (forall i :: 0 <= i < |os| ==>
            r[i].id == os[i].id && r[i].sourceImageId == os[i].sourceImageId && r[i].promptId == os[i].promptId)
  {
  }

  /** After a cancel no output is pending or generating, the outputs that
      were pending or generating carry "Cancelled by user.", and completed or
      failed ones are untouched. */
  lemma CancelFinishesEverything(os: seq<OutputItem>)
    ensures var r := CancelOutputs(os);
      && |r| == |os|
      && (forall i :: 0 <= i < |r| ==> r[i].status == Complete || r[i].status == Error)
      && (forall i :: 0 <= i < |os| && Unfinished(os[i]) ==>
            r[i].status == Error && r[i].error == Some(CANCELLED) && r[i].imageUrl == os[i].imageUrl)
      && (forall i :: 0 <= i < |os| && !Unfinished(os[i]) ==> r[i] == os[i])
      && (forall i :: 0 <= i < |os| ==> r[i].id == os[i].id)
  {
  }

  // ---------------------------------------------------------------------
  // Filters of the image and prompt lists
  // ---------------------------------------------------------------------

  /** `xs.filter(x => key(x) !== id)`. */
  function FilterOutId<T>(xs: seq<T>, key: T -> int, id: int): (r: seq<T>)
    ensures |r| <= |xs|
    ensures forall i :: 0 <= i < |r| ==> r[i] in xs && key(r[i]) != id
    ensures forall i :: 0 <= i < |xs| && key(xs[i]) != id ==> xs[i] in r
  {
    if xs == [] then []
    else if key(xs[0]) == id then FilterOutId(xs[1..], key, id)
    else [xs[0]] + FilterOutId(xs[1..], key, id)
  }

  lemma PrependKeepsKeysDistinct<T>(x: T, rest: seq<T>, key: T -> int)
    requires forall i, j :: 0 <= i < j < |rest| ==> key(rest[i]) != key(rest[j])
    requires forall k :: 0 <= k < |rest| ==> key(rest[k]) != key(x)
    ensures forall i, j :: 0 <= i < j < |[x] + rest| ==> key(([x] + rest)[i]) != key(([x] + rest)[j])
  {
    forall i, j | 0 <= i < j < |[x] + rest|
      ensures key(([x] + rest)[i]) != key(([x] + rest)[j])
    {
      assert ([x] + rest)[j] == rest[j - 1];
      if i > 0 {
        assert ([x] + rest)[i] == rest[i - 1];
      }
    }
  }

  /** The filter keeps the survivors in their order and with their
      multiplicity: it works element by element, and a single element is
      kept exactly when its key differs. */
  lemma {:induction false} FilterOutIdSplits<T>(a: seq<T>, b: seq<T>, key: T -> int, id: int)
    ensures FilterOutId(a + b, key, id) == FilterOutId(a, key, id) + FilterOutId(b, key, id)
    ensures forall x :: FilterOutId([x], key, id) == if key(x) == id then [] else [x]
    decreases |a|
  {
    if a == [] {
      assert a + b == b;
    } else {
      assert (a + b)[0] == a[0] && (a + b)[1..] == a[1..] + b;
      FilterOutIdSplits(a[1..], b, key, id);
    }
    forall x
      ensures FilterOutId([x], key, id) == if key(x) == id then [] else [x]
    {
      assert [x][1..] == [];
    }
  }

  /** Keys that were pairwise distinct stay pairwise distinct. */
  lemma {:induction false} FilterOutIdKeepsKeysDistinct<T>(xs: seq<T>, key: T -> int, id: int)
    requires forall i, j :: 0 <= i < j < |xs| ==> key(xs[i]) != key(xs[j])
    ensures forall i, j :: 0 <= i < j < |FilterOutId(xs, key, id)| ==>
      key(FilterOutId(xs, key, id)[i]) != key(FilterOutId(xs, key, id)[j])
    decreases |xs|
  {
    if xs != [] {
      var rest := FilterOutId(xs[1..], key, id);
      assert forall i, j :: 0 <= i < j < |xs[1..]| ==> key(xs[1..][i]) != key(xs[1..][j]) by {
        assert forall i :: 0 <= i < |xs[1..]| ==> xs[1..][i] == xs[i + 1];
      }
      FilterOutIdKeepsKeysDistinct(xs[1..], key, id);
      if key(xs[0]) != id {
        forall k | 0 <= k < |rest|
          ensures key(rest[k]) != key(xs[0])
        {
          var p :| 0 <= p < |xs[1..]| && xs[1..][p] == rest[k];
          assert xs[p + 1] == rest[k];
        }
        PrependKeepsKeysDistinct(xs[0], rest, key);
        assert FilterOutId(xs, key, id) == [xs[0]] + rest;
      } else {
        assert FilterOutId(xs, key, id) == rest;
      }
    }
  }

  function RemovePromptById(ps: seq<Prompt>, id: int): seq<Prompt> {
    FilterOutId(ps, PromptId, id)
  }

  function RemoveImageById(images: seq<UploadedImage>, id: int): seq<UploadedImage> {
    FilterOutId(images, ImageId, id)
  }

  /** Images read from `count` files get consecutive fresh ids. */
  function NewImages(data: seq<string>, base: nat): (r: seq<UploadedImage>)
    ensures |r| == |data|
    ensures forall i :: 0 <= i < |data| ==> r[i] == UploadedImage(base + i, data[i])
    decreases |data|
  {
    if data == [] then []
    else NewImages(data[..|data| - 1], base) + [UploadedImage(base + |data| - 1, data[|data| - 1])]
  }

  // ---------------------------------------------------------------------
  // handleGenerate: validation and the image × prompt product
  // ---------------------------------------------------------------------

  /** `isVectorReady || isMatrixReady`, with at least one image. */
  predicate Ready(sess: Session) {
    && |sess.images| > 0
    && ((sess.mode == Vector && Trim(sess.vectorPrompt) != "") || (sess.mode == Matrix && |sess.prompts| > 0))
  }

  /** `promptsToUse`: the synthetic prompt in vector mode, else the list. */
  function PromptsToUse(sess: Session): seq<Prompt> {
    if sess.mode == Vector then [Prompt(VECTOR_PROMPT_ID, "Result", sess.vectorPrompt)] else sess.prompts
  }

  function NewOutput(id: int, img: UploadedImage, p: Prompt): OutputItem {
    OutputItem(id, img.id, p.id, None, Pending, None)
  }

  /** The outputs the inner loop creates for one image, ids from `base`. */
  function Row(img: UploadedImage, ps: seq<Prompt>, base: nat): seq<OutputItem>
    decreases |ps|
  {
    if ps == [] then []
    else
      var pre := Row(img, ps[..|ps| - 1], base);
      pre + [NewOutput(base + |pre|, img, ps[|ps| - 1])]
  }

  /** The outputs both loops create, ids from `base`. */
  function Product(images: seq<UploadedImage>, ps: seq<Prompt>, base: nat): seq<OutputItem>
    decreases |images|
  {
    if images == [] then []
    else
      var pre := Product(images[..|images| - 1], ps, base);
      pre + Row(images[|images| - 1], ps, base + |pre|)
  }

  function QueueItemOf(o: OutputItem): QueueItem {
    QueueItem(o.id, o.sourceImageId, o.promptId)
  }

  /** The queue entries that go with a list of new outputs, in order. */
  function QueueOf(os: seq<OutputItem>): (r: seq<QueueItem>)
    ensures |r| == |os|
    ensures forall i :: 0 <= i < |os| ==> r[i] == QueueItemOf(os[i])
    decreases |os|
  {
    if os == [] then [] else QueueOf(os[..|os| - 1]) + [QueueItemOf(os[|os| - 1])]
  }

  /** One more prompt extends a row by one output with the next id. */
  lemma RowStep(img: UploadedImage, ps: seq<Prompt>, j: nat, base: nat)
    requires j < |ps|
    ensures Row(img, ps[..j + 1], base)
         == Row(img, ps[..j], base) + [NewOutput(base + |Row(img, ps[..j], base)|, img, ps[j])]
  {
    assert ps[..j + 1][..j] == ps[..j];
  }

  /** One more image extends the product by its row. */
  lemma ProductStep(images: seq<UploadedImage>, ps: seq<Prompt>, i: nat, base: nat)
    requires i < |images|
    ensures Product(images[..i + 1], ps, base)
         == Product(images[..i], ps, base) + Row(images[i], ps, base + |Product(images[..i], ps, base)|)
  {
    assert images[..i + 1][..i] == images[..i];
  }

  lemma QueueOfAppend(os: seq<OutputItem>, o: OutputItem)
    ensures QueueOf(os + [o]) == QueueOf(os) + [QueueItemOf(o)]
  {
    assert (os + [o])[..|os|] == os;
  }

  /** handleGenerate. Rejected input changes nothing; otherwise the outputs
      and the queue are replaced, a new controller is installed, the flag is
      set and the counter reset. The pumping is done by the start effect. */
  function GenerateSpec(st: State): State {
    if !Ready(st.session) then st
    else
      var os := Product(st.session.images, PromptsToUse(st.session), st.nextId);
      st.(controller := Present(false), isGenerating := true, active := 0,
          outputs := os, queue := QueueOf(os), nextId := st.nextId + |os|)
  }

  /** Generate is refused, and changes nothing, exactly when there is no
      image, or the mode is vector and the vector prompt is blank, or the
      mode is matrix and there is no prompt. */
  lemma GenerateRejected(st: State)
    ensures !Ready(st.session) <==>
      || |st.session.images| == 0
      || (st.session.mode == Vector && AllWhitespace(st.session.vectorPrompt))
      || (st.session.mode == Matrix && |st.session.prompts| == 0)
    ensures !Ready(st.session) ==> GenerateSpec(st) == st
  {
    TrimEmptyIffBlank(st.session.vectorPrompt);
  }

  lemma {:induction false} RowAt(img: UploadedImage, ps: seq<Prompt>, base: nat)
    ensures |Row(img, ps, base)| == |ps|
    ensures forall b :: 0 <= b < |ps| ==> Row(img, ps, base)[b] == NewOutput(base + b, img, ps[b])
    decreases |ps|
  {
    if ps != [] {
      var ps' := ps[..|ps| - 1];
      RowAt(img, ps', base);
      assert forall b :: 0 <= b < |ps'| ==> ps'[b] == ps[b];
    }
  }

  /** Position of the output for image a and prompt b among m prompts:
      the loops fill the list image by image. */
  function Slot(a: nat, b: nat, m: nat): nat {
    a * m + b
  }

  lemma SlotBelow(a: nat, b: nat, m: nat, n: nat)
    requires a < n && b < m
    ensures Slot(a, b, m) < n * m
  {
    var d: nat := n - a - 1;
    assert n * m == a * m + d * m + m;
  }

  lemma {:induction false} ProductLength(images: seq<UploadedImage>, ps: seq<Prompt>, base: nat)
    ensures |Product(images, ps, base)| == |images| * |ps|
    decreases |images|
  {
    if images != [] {
      var n := |images|;
      ProductLength(images[..n - 1], ps, base);
      RowAt(images[n - 1], ps, base + |Product(images[..n - 1], ps, base)|);
      MulStep(n, |ps|);
    }
  }

  lemma MulStep(n: nat, m: nat)
    requires n > 0
    ensures n * m == (n - 1) * m + m
  {
  }

  lemma {:induction false} ProductSlot(images: seq<UploadedImage>, ps: seq<Prompt>, base: nat, a: nat, b: nat)
    requires a < |images| && b < |ps|
    ensures Slot(a, b, |ps|) < |Product(images, ps, base)|
    ensures Product(images, ps, base)[Slot(a, b, |ps|)] == NewOutput(base + Slot(a, b, |ps|), images[a], ps[b])
    decreases |images|
  {
    var n := |images|;
    var m := |ps|;
    var images' := images[..n - 1];
    var pre := Product(images', ps, base);
    ProductLength(images', ps, base);
    ProductLength(images, ps, base);
    SlotBelow(a, b, m, n);
    if a < n - 1 {
      SlotBelow(a, b, m, n - 1);
      ProductSlot(images', ps, base, a, b);
      assert images'[a] == images[a];
    } else {
      RowAt(images[n - 1], ps, base + |pre|);
      assert Slot(a, b, m) == |pre| + b;
    }
  }

  /** The product in image-major order: the output for image a and prompt
      b sits at Slot(a, b, |ps|), takes id base + Slot(a, b, |ps|), and is
      pending with no image and no error. */
  lemma ProductAt(images: seq<UploadedImage>, ps: seq<Prompt>, base: nat)
    ensures |Product(images, ps, base)| == |images| * |ps|
    ensures forall a, b :: 0 <= a < |images| && 0 <= b < |ps| ==>
      Slot(a, b, |ps|) < |images| * |ps|
      && Product(images, ps, base)[Slot(a, b, |ps|)] == NewOutput(base + Slot(a, b, |ps|), images[a], ps[b])
  {
    ProductLength(images, ps, base);
    forall a, b | 0 <= a < |images| && 0 <= b < |ps|
      ensures Slot(a, b, |ps|) < |images| * |ps|
      ensures Product(images, ps, base)[Slot(a, b, |ps|)] == NewOutput(base + Slot(a, b, |ps|), images[a], ps[b])
    {
      ProductSlot(images, ps, base, a, b);
    }
  }

  /** An accepted generate starts a batch: the outputs are one pending
      output per image and prompt, image by image, numbered consecutively
      from the counter, which moves past them; the queue holds one entry per
      output in the same order; a fresh controller is installed, the flag is
      set and the count reset, while the calls in flight and the session are
      left alone. */
  lemma GenerateLaunches(st: State)
    requires Ready(st.session)
    ensures var r := GenerateSpec(st);
      var images := st.session.images;
      var ps := PromptsToUse(st.session);
      && |r.outputs| == |images| * |ps|
      && (forall a, b :: 0 <= a < |images| && 0 <= b < |ps| ==>
            Slot(a, b, |ps|) < |r.outputs|
            && r.outputs[Slot(a, b, |ps|)]
               == OutputItem(st.nextId + Slot(a, b, |ps|), images[a].id, ps[b].id, None, Pending, None))
      && (forall j :: 0 <= j < |r.outputs| ==> r.outputs[j].id == st.nextId + j)
      && |r.queue| == |r.outputs|
      && (forall j :: 0 <= j < |r.queue| ==>
            r.queue[j] == QueueItem(r.outputs[j].id, r.outputs[j].sourceImageId, r.outputs[j].promptId))
      && r.nextId == st.nextId + |images| * |ps|
      && r.controller == Present(false) && r.isGenerating && r.active == 0
      && r.inFlight == st.inFlight && r.session == st.session
  {
    ProductAt(st.session.images, PromptsToUse(st.session), st.nextId);
    ProductIds(st.session.images, PromptsToUse(st.session), st.nextId);
  }

  // ---------------------------------------------------------------------
  // processQueue: the guarded pump
  // ---------------------------------------------------------------------

  /** The guard at the top of `processQueue`. A controller that has been
      aborted still passes it. */
  predicate CanPump(st: State) {
    st.active < API_CONCURRENCY_LIMIT && |st.queue| > 0 && st.controller.Present?
  }

  /** The prompt text a dispatch sends, resolved when the item is
      dispatched, not when it was queued. */
  function ResolvePromptText(s: Session, promptId: int): (text: string)
    ensures s.mode == Vector ==> text == (if Trim(s.vectorPrompt) != "" then Trim(s.vectorPrompt) else DEFAULT_PROMPT_TEXT)
    ensures s.mode == Matrix && (forall i :: 0 <= i < |s.prompts| ==> s.prompts[i].id != promptId) ==>
      text == DEFAULT_PROMPT_TEXT
    ensures s.mode == Matrix && (exists i :: 0 <= i < |s.prompts| && s.prompts[i].id == promptId) ==>
      exists k :: 0 <= k < |s.prompts| && s.prompts[k].id == promptId && text == s.prompts[k].text
               && forall i :: 0 <= i < k ==> s.prompts[i].id != promptId
  {
    if s.mode == Vector then
      if Trim(s.vectorPrompt) != "" then Trim(s.vectorPrompt) else DEFAULT_PROMPT_TEXT
    else
      match FindPrompt(s.prompts, promptId)
      case Some(p) => p.text
      case None => DEFAULT_PROMPT_TEXT
  }

  /** One call of `processQueue` up to its first `await`. It takes the head
      of the queue and counts it as active; if its source image is gone the
      item fails at once, the count is given back and the pump runs again;
      otherwise the output turns `generating` and the call is in flight. */
  function PumpSpec(st: State, s: Session): State
    decreases |st.queue|
  {
    if !CanPump(st) then st
    else
      var item := st.queue[0];
      var taken := st.(active := st.active + 1, queue := st.queue[1..]);
      match FindImage(s.images, item.sourceImageId)
      case None =>
        PumpSpec(taken.(outputs := UpdateOutput(taken.outputs, item.outputId, ToError(SOURCE_NOT_FOUND)),
                        active := taken.active - 1), s)
      case Some(img) =>
        taken.(outputs := UpdateOutput(taken.outputs, item.outputId, ToGenerating),
               inFlight := taken.inFlight + [Call(item.outputId, img.base64Data, ResolvePromptText(s, item.promptId))])
  }

  /** Index of the first queued item whose source image can be found. */
  function FirstResolvable(queue: seq<QueueItem>, images: seq<UploadedImage>): (n: nat)
    ensures n <= |queue|
    ensures forall i :: 0 <= i < n ==> FindImage(images, queue[i].sourceImageId).None?
    ensures n < |queue| ==> FindImage(images, queue[n].sourceImageId).Some?
  {
    if queue == [] then 0
    else if FindImage(images, queue[0].sourceImageId).Some? then 0
    else
      var n := FirstResolvable(queue[1..], images);
      assert forall i :: 1 <= i < |queue| ==> queue[i] == queue[1..][i - 1];
      1 + n
  }

  /** The outputs of the given items, each failed with "Source image not found.". */
  function MarkMissing(os: seq<OutputItem>, items: seq<QueueItem>): (r: seq<OutputItem>)
    ensures |r| == |os|
    ensures forall i :: 0 <= i < |os| ==>
      r[i] == if exists j :: 0 <= j < |items| && items[j].outputId == os[i].id
              then os[i].(status := Error, error := Some(SOURCE_NOT_FOUND))
              else os[i]
    decreases |items|
  {
    if items == [] then os
    else
      assert forall j :: 1 <= j < |items| ==> items[j] == items[1..][j - 1];
      MarkMissing(UpdateOutput(os, items[0].outputId, ToError(SOURCE_NOT_FOUND)), items[1..])
  }

  /** What one pump does, stated without its recursion: if the guard fails,
      nothing; otherwise every item ahead of the first resolvable one fails
      as "Source image not found." and leaves the queue, and the first
      resolvable item, if any, is removed from the head (FIFO), turned
      `generating` and sent with the prompt text of the pump's session,
      with the active count one higher. */
  lemma {:induction false} PumpCharacterization(st: State, s: Session)
    ensures var r := PumpSpec(st, s);
      var n := FirstResolvable(st.queue, s.images);
      if !CanPump(st) then r == st
      else if n < |st.queue| then
        var item := st.queue[n];
        r == st.(outputs := UpdateOutput(MarkMissing(st.outputs, st.queue[..n]), item.outputId, ToGenerating),
                 queue := st.queue[n + 1..],
                 active := st.active + 1,
                 inFlight := st.inFlight + [Call(item.outputId, FindImage(s.images, item.sourceImageId).value.base64Data,
                                                 ResolvePromptText(s, item.promptId))])
      else
        r == st.(outputs := MarkMissing(st.outputs, st.queue), queue := [])
    decreases |st.queue|
  {
    if CanPump(st) {
      var item := st.queue[0];
      if FindImage(s.images, item.sourceImageId).None? {
        var next := st.(outputs := UpdateOutput(st.outputs, item.outputId, ToError(SOURCE_NOT_FOUND)),
                        queue := st.queue[1..]);
        assert PumpSpec(st, s) == PumpSpec(next, s);
        PumpCharacterization(next, s);
        var n := FirstResolvable(st.queue, s.images);
        assert n == 1 + FirstResolvable(next.queue, s.images);
        assert st.queue[..n][1..] == next.queue[..n - 1];
        assert MarkMissing(st.outputs, st.queue[..n]) == MarkMissing(next.outputs, next.queue[..n - 1]);
        if n < |st.queue| {
          assert next.queue[n - 1] == st.queue[n];
          assert next.queue[n..] == st.queue[n + 1..];
        } else if |next.queue| == 0 {
          assert st.queue[..n] == st.queue == [item];
        }
      }
    }
  }

  /** A pump raises the active count by exactly one when it dispatches a
      call and leaves it unchanged otherwise; it dispatches only below the
      ceiling, so a pump that starts at or under 2 ends at or under 2. */
  lemma PumpRespectsCeiling(st: State, s: Session)
    ensures var r := PumpSpec(st, s);
      && r.active - st.active == |r.inFlight| - |st.inFlight|
      && (r.inFlight == st.inFlight || (st.active < API_CONCURRENCY_LIMIT && |r.inFlight| == |st.inFlight| + 1))
      && r.inFlight[..|st.inFlight|] == st.inFlight
      && (st.active <= API_CONCURRENCY_LIMIT ==> r.active <= API_CONCURRENCY_LIMIT)
      && (0 <= st.active ==> 0 <= r.active)
      && r.session == st.session && r.isGenerating == st.isGenerating
      && r.controller == st.controller && r.nextId == st.nextId
  {
    PumpCharacterization(st, s);
  }

  /** The effect that starts a batch: when the flag is set and the queue is
      not empty, `processQueue` is called API_CONCURRENCY_LIMIT times. */
  function PumpTimes(st: State, s: Session, n: nat): State {
    if n == 0 then st else PumpSpec(PumpTimes(st, s, n - 1), s)
  }

  function StartEffectSpec(st: State, s: Session): State {
    if st.isGenerating && |st.queue| > 0 then PumpTimes(st, s, API_CONCURRENCY_LIMIT) else st
  }

  /** With nothing in flight and every queued source present, the start
      effect dispatches the first min(2, |queue|) items, in queue order. */
  lemma StartEffectFillsSlots(st: State, s: Session)
    requires st.isGenerating && st.controller.Present? && st.active == 0
    requires forall i :: 0 <= i < |st.queue| ==> FindImage(s.images, st.queue[i].sourceImageId).Some?
    ensures var r := StartEffectSpec(st, s);
      var d := if |st.queue| < 2 then |st.queue| else 2;
      && r.queue == st.queue[d..]
      && r.active == d
      && |r.inFlight| == |st.inFlight| + d
      && r.inFlight[..|st.inFlight|] == st.inFlight
      && (forall j :: 0 <= j < d ==> r.inFlight[|st.inFlight| + j].outputId == st.queue[j].outputId)
  {
    if |st.queue| > 0 {
      var p1 := PumpTimes(st, s, 1);
      assert PumpTimes(st, s, 0) == st;
      PumpCharacterization(st, s);
      assert FirstResolvable(st.queue, s.images) == 0;
      PumpCharacterization(p1, s);
      if |st.queue| > 1 {
        assert p1.queue[0] == st.queue[1];
        assert FirstResolvable(p1.queue, s.images) == 0;
        assert p1.queue[1..] == st.queue[2..];
      }
    }
  }

  // ---------------------------------------------------------------------
  // Settlement of an in-flight call
  // ---------------------------------------------------------------------

  /** The message of the catch block: an error NAMED "AbortError" shows as
      a cancellation, any other shows its own message. */
  function SettleMessage(e: GeminiService.JsError): string {
    if e.name == "AbortError" then CANCELLED else e.message
  }

  function SettlePatch(o: GeminiService.Outcome): Patch {
    match o
    case Success(url) => ToComplete(url)
    case Failure(e) => ToError(SettleMessage(e))
  }

  function RemoveAt<T>(xs: seq<T>, k: nat): (r: seq<T>)
    requires k < |xs|
    ensures |r| == |xs| - 1
    ensures forall i :: 0 <= i < k ==> r[i] == xs[i]
    ensures forall i :: k <= i < |r| ==> r[i] == xs[i + 1]
  {
    xs[..k] + xs[k + 1..]
  }

  /** The try/catch and the decrement of the finally block. */
  function SettleCore(st: State, k: nat, outcome: GeminiService.Outcome): State
    requires k < |st.inFlight|
  {
    st.(outputs := UpdateOutput(st.outputs, st.inFlight[k].outputId, SettlePatch(outcome)),
        inFlight := RemoveAt(st.inFlight, k),
        active := st.active - 1)
  }

  /** The rest of the finally block: the batch ends when the queue is empty
      and the count is exactly 0; otherwise the pump runs again. */
  function AfterSettle(st: State, s: Session): State {
    if |st.queue| == 0 && st.active == 0 then st.(isGenerating := false) else PumpSpec(st, s)
  }

  /** The in-flight call number k settles with `outcome`. */
  function SettleSpec(st: State, k: nat, outcome: GeminiService.Outcome, s: Session): State
    requires k < |st.inFlight|
  {
    AfterSettle(SettleCore(st, k, outcome), s)
  }

  /** Settling changes only the outputs of the settled call: a success
      completes them with the url, a failure named "AbortError" fails them
      with "Cancelled by user.", any other failure with its message. The
      count drops by one; the flag clears exactly when the queue is empty
      and the count is then 0, and otherwise the pump runs. */
  lemma SettleCases(st: State, k: nat, outcome: GeminiService.Outcome, s: Session)
    requires k < |st.inFlight|
    ensures var c := SettleCore(st, k, outcome);
      var id := st.inFlight[k].outputId;
      && |c.outputs| == |st.outputs|
      && (forall i :: 0 <= i < |st.outputs| && st.outputs[i].id != id ==> c.outputs[i] == st.outputs[i])
      && (forall i :: 0 <= i < |st.outputs| && st.outputs[i].id == id ==>
            match outcome
            case Success(url) =>
              c.outputs[i] == st.outputs[i].(status := Complete, imageUrl := Some(url))
            case Failure(e) =>
              c.outputs[i] == st.outputs[i].(status := Error,
                                             error := Some(if e.name == "AbortError" then CANCELLED else e.message)))
      && c.active == st.active - 1
      && c.inFlight == st.inFlight[..k] + st.inFlight[k + 1..]
      && (|st.queue| == 0 && st.active == 1 ==> SettleSpec(st, k, outcome, s) == c.(isGenerating := false))
      && (|st.queue| != 0 || st.active != 1 ==> SettleSpec(st, k, outcome, s) == PumpSpec(c, s))
  {
  }

  // ---------------------------------------------------------------------
  // handleCancel and handleRegenerate
  // ---------------------------------------------------------------------

  /** handleCancel. The calls already in flight are not stopped: nothing
      removes them from `inFlight`, while the count is reset to 0. */
  function CancelSpec(st: State): State {
    st.(controller := if st.controller.Present? then Present(true) else Absent,
        queue := [],
        outputs := CancelOutputs(st.outputs),
        isGenerating := false,
        active := 0)
  }

  /** The part of handleRegenerate before its `processQueue()` call. */
  function RegenerateEnqueue(st: State, outputId: int): State {
    match FindOutput(st.outputs, outputId)
    case None => st
    case Some(o) =>
      st.(controller := if st.isGenerating then st.controller else Present(false),
          isGenerating := true,
          outputs := UpdateOutput(st.outputs, outputId, ToPending),
          queue := st.queue + [QueueItem(o.id, o.sourceImageId, o.promptId)])
  }

  /** handleRegenerate: an unknown id returns before anything happens. */
  function RegenerateSpec(st: State, outputId: int, s: Session): State {
    if FindOutput(st.outputs, outputId).None? then st
    else PumpSpec(RegenerateEnqueue(st, outputId), s)
  }

  /** Regenerating an output the lookup finds: its entry is queued and the
      pump runs. */
  lemma RegenerateFound(st: State, outputId: int, s: Session)
    requires FindOutput(st.outputs, outputId).Some?
    ensures var o := FindOutput(st.outputs, outputId).value;
      && RegenerateEnqueue(st, outputId)
         == st.(controller := if st.isGenerating then st.controller else Present(false),
                isGenerating := true,
                outputs := UpdateOutput(st.outputs, outputId, ToPending),
                queue := st.queue + [QueueItem(o.id, o.sourceImageId, o.promptId)])
      && RegenerateSpec(st, outputId, s) == PumpSpec(RegenerateEnqueue(st, outputId), s)
  {
  }

  /** The first output carrying an id is what the lookup returns. */
  predicate FirstWithId(os: seq<OutputItem>, id: int, k: int) {
    0 <= k < |os| && os[k].id == id && forall i :: 0 <= i < k ==> os[i].id != id
  }

  lemma FindOutputFirst(os: seq<OutputItem>, id: int, k: int)
    requires FirstWithId(os, id, k)
    ensures FindOutput(os, id) == Some(os[k])
  {
    var o := FindOutput(os, id);
    var j :| 0 <= j < |os| && os[j] == o.value && o.value.id == id
             && forall i :: 0 <= i < j ==> os[i].id != id;
    assert j == k;
  }

  /** Regenerating an id no output has changes nothing. */
  lemma RegenerateUnknownId(st: State, outputId: int, s: Session)
    requires forall i :: 0 <= i < |st.outputs| ==> st.outputs[i].id != outputId
    ensures RegenerateSpec(st, outputId, s) == st
  {
  }

  /** Regenerating the output first found at index k sends only the outputs
      with that id back to pending with no image and no error, appends one
      entry with its source image and prompt at the TAIL of the queue, and,
      when idle, installs a fresh controller; the flag is then set and the
      pump runs. */
  lemma RegenerateKnownId(st: State, outputId: int, k: int, s: Session)
    requires FirstWithId(st.outputs, outputId, k)
    ensures var e := RegenerateEnqueue(st, outputId);
      && e.queue == st.queue + [QueueItem(outputId, st.outputs[k].sourceImageId, st.outputs[k].promptId)]
      && |e.outputs| == |st.outputs|
      && (forall i :: 0 <= i < |st.outputs| ==>
            e.outputs[i] == if st.outputs[i].id == outputId
                            then st.outputs[i].(status := Pending, imageUrl := None, error := None)
                            else st.outputs[i])
      && e.isGenerating
      && e.controller == (if st.isGenerating then st.controller else Present(false))
      && e.active == st.active && e.inFlight == st.inFlight && e.nextId == st.nextId
      && RegenerateSpec(st, outputId, s) == PumpSpec(e, s)
  {
    FindOutputFirst(st.outputs, outputId, k);
  }

  // ---------------------------------------------------------------------
  // Image and prompt edits
  // ---------------------------------------------------------------------

  function AddPromptSpec(st: State, title: string, text: string): State {
    st.(session := st.session.(prompts := st.session.prompts + [Prompt(st.nextId, title, text)]),
        nextId := st.nextId + 1)
  }

  function RemovePromptSpec(st: State, id: int): State {
    st.(session := st.session.(prompts := RemovePromptById(st.session.prompts, id)))
  }

  function AddImagesSpec(st: State, data: seq<string>): State {
    st.(session := st.session.(images := st.session.images + NewImages(data, st.nextId)),
        nextId := st.nextId + |data|)
  }

  function RemoveImageSpec(st: State, id: int): State {
    st.(session := st.session.(images := RemoveImageById(st.session.images, id)))
  }

  function ClearImagesSpec(st: State): State {
    st.(session := st.session.(images := []), outputs := [])
  }

  function ModeChangeSpec(st: State, m: Mode): State {
    st.(session := st.session.(mode := m), outputs := [])
  }

  function SetVectorPromptSpec(st: State, text: string): State {
    st.(session := st.session.(vectorPrompt := text))
  }

  // ---------------------------------------------------------------------
  // The component as one event-driven state machine
  // ---------------------------------------------------------------------

  /** Everything that can happen to the component. `Settle` names which of
      the in-flight calls settles, and what the remote service does on each
      of its attempts; the session arguments are what the closure read. */
  datatype Event =
    | Generate
    | StartEffect(s: Session)
    | Settle(k: nat, attempts: seq<GeminiService.Attempt>, s: Session)
    | Cancel
    | Regenerate(outputId: int, s: Session)
    | AddPrompt(title: string, text: string)
    | RemovePrompt(id: int)
    | AddImages(data: seq<string>)
    | RemoveImage(id: int)
    | ClearImages
    | ModeChange(mode: Mode)
    | SetVectorPrompt(text: string)

  /** A settle names a call in flight and an attempt oracle long enough for
      every attempt the wrapper may make. Attempt 0 checks the signal
      synchronously, inside the `processQueue` call that dispatched it, and
      every dispatch happens under a controller that is not aborted
      (`DispatchUnderLiveController`), so attempt 0 never finds it aborted. */
  predicate Enabled(st: State, e: Event) {
    e.Settle? ==> e.k < |st.inFlight| && GeminiService.API_RETRY_LIMIT <= |e.attempts| && !e.attempts[0].signalAborted
  }

  /** A call's settlement outcome is what `generateImageWithRetry` ends with. */
  function CallOutcome(attempts: seq<GeminiService.Attempt>): GeminiService.Outcome
    requires GeminiService.API_RETRY_LIMIT <= |attempts|
  {
    GeminiService.GenerateImageWithRetry(attempts, 0).outcome
  }

  function Step(st: State, e: Event): State
    requires Enabled(st, e)
  {
    match e
    case Generate => GenerateSpec(st)
    case StartEffect(s) => StartEffectSpec(st, s)
    case Settle(k, attempts, s) => SettleSpec(st, k, CallOutcome(attempts), s)
    case Cancel => CancelSpec(st)
    case Regenerate(id, s) => RegenerateSpec(st, id, s)
    case AddPrompt(title, text) => AddPromptSpec(st, title, text)
    case RemovePrompt(id) => RemovePromptSpec(st, id)
    case AddImages(data) => AddImagesSpec(st, data)
    case RemoveImage(id) => RemoveImageSpec(st, id)
    case ClearImages => ClearImagesSpec(st)
    case ModeChange(m) => ModeChangeSpec(st, m)
    case SetVectorPrompt(text) => SetVectorPromptSpec(st, text)
  }

  /** The count matches the calls really in flight, and is within the
      ceiling. */
  predicate CallsCounted(st: State) {
    st.active == |st.inFlight| && st.active <= API_CONCURRENCY_LIMIT
  }

  lemma PumpTimesKeepsCount(st: State, s: Session, n: nat)
    requires CallsCounted(st)
    ensures CallsCounted(PumpTimes(st, s, n))
  {
    if n > 0 {
      PumpTimesKeepsCount(st, s, n - 1);
      PumpRespectsCeiling(PumpTimes(st, s, n - 1), s);
    }
  }

  /** "At most 2 calls in flight" holds step by step, but only as long as
      neither a cancel nor a new batch resets the count while calls are
      still in flight: the initial state satisfies it, and every other
      event keeps the count equal to the number of pending calls and
      within the ceiling. */
  lemma CeilingHoldsWithoutReset(st: State, e: Event)
    requires CallsCounted(st) && Enabled(st, e)
    requires (e.Generate? || e.Cancel?) ==> st.inFlight == []
    ensures CallsCounted(InitialState())
    ensures CallsCounted(Step(st, e))
    ensures |Step(st, e).inFlight| <= API_CONCURRENCY_LIMIT
  {
    assert CallsCounted(InitialState());
    match e
    case StartEffect(s) =>
      PumpTimesKeepsCount(st, s, API_CONCURRENCY_LIMIT);
    case Settle(k, attempts, s) =>
      var c := SettleCore(st, k, CallOutcome(attempts));
      PumpRespectsCeiling(c, s);
    case Regenerate(id, s) =>
      if FindOutput(st.outputs, id).Some? {
        PumpRespectsCeiling(RegenerateEnqueue(st, id), s);
      }
    case _ =>
  }

  // ---------------------------------------------------------------------
  // Calls are dispatched under a live controller
  // ---------------------------------------------------------------------

  /** While a batch runs the installed controller has not been aborted, and
      work is queued only while a batch runs. */
  predicate ControllerLive(st: State) {
    && (st.isGenerating ==> st.controller == Present(false))
    && (|st.queue| > 0 ==> st.isGenerating)
  }

  /** A pump that dispatches a call does so while the controller is
      installed and not aborted, and a pump keeps the controller live. */
  lemma DispatchUnderLiveController(st: State, s: Session)
    requires ControllerLive(st)
    ensures |PumpSpec(st, s).inFlight| > |st.inFlight| ==> st.controller == Present(false)
    ensures ControllerLive(PumpSpec(st, s))
  {
    PumpCharacterization(st, s);
  }

  lemma PumpTimesKeepsControllerLive(st: State, s: Session, n: nat)
    requires ControllerLive(st)
    ensures ControllerLive(PumpTimes(st, s, n))
  {
    if n > 0 {
      PumpTimesKeepsControllerLive(st, s, n - 1);
      DispatchUnderLiveController(PumpTimes(st, s, n - 1), s);
    }
  }

  /** The component starts with a live controller, and every event keeps
      it live: a cancel aborts the controller but also clears the flag and
      the queue, and a generate or an idle regenerate installs a fresh one. */
  lemma ControllerStaysLive(st: State, e: Event)
    requires ControllerLive(st) && Enabled(st, e)
    ensures ControllerLive(InitialState())
    ensures ControllerLive(Step(st, e))
  {
    match e
    case StartEffect(s) =>
      PumpTimesKeepsControllerLive(st, s, API_CONCURRENCY_LIMIT);
    case Settle(k, attempts, s) =>
      DispatchUnderLiveController(SettleCore(st, k, CallOutcome(attempts)), s);
    case Regenerate(id, s) =>
      if FindOutput(st.outputs, id).Some? {
        DispatchUnderLiveController(RegenerateEnqueue(st, id), s);
      }
    case _ =>
  }

  // ---------------------------------------------------------------------
  // One counter hands out every id
  // ---------------------------------------------------------------------

  /** Every image, prompt and output id was drawn from `nextId` before its
      current value, and no two images, no two prompts and no two outputs
      share an id. */
  predicate IdsFresh(st: State) {
    && (forall i :: 0 <= i < |st.session.images| ==> st.session.images[i].id < st.nextId)
    && (forall i, j :: 0 <= i < j < |st.session.images| ==> st.session.images[i].id != st.session.images[j].id)
    && (forall i :: 0 <= i < |st.session.prompts| ==> st.session.prompts[i].id < st.nextId)
    && (forall i, j :: 0 <= i < j < |st.session.prompts| ==> st.session.prompts[i].id != st.session.prompts[j].id)
    && (forall i :: 0 <= i < |st.outputs| ==> st.outputs[i].id < st.nextId)
    && (forall i, j :: 0 <= i < j < |st.outputs| ==> st.outputs[i].id != st.outputs[j].id)
  }

  predicate SameIds(a: seq<OutputItem>, b: seq<OutputItem>) {
    |a| == |b| && forall i :: 0 <= i < |a| ==> a[i].id == b[i].id
  }

  /** The batch numbers its outputs consecutively from `base`, in list order. */
  lemma {:induction false} ProductIds(images: seq<UploadedImage>, ps: seq<Prompt>, base: nat)
    ensures forall j :: 0 <= j < |Product(images, ps, base)| ==> Product(images, ps, base)[j].id == base + j
    decreases |images|
  {
    if images != [] {
      var pre := Product(images[..|images| - 1], ps, base);
      var row := Row(images[|images| - 1], ps, base + |pre|);
      ProductIds(images[..|images| - 1], ps, base);
      RowAt(images[|images| - 1], ps, base + |pre|);
      var os := Product(images, ps, base);
      assert os == pre + row;
      forall j | 0 <= j < |os|
        ensures os[j].id == base + j
      {
        if j < |pre| {
          assert os[j] == pre[j];
        } else {
          assert os[j] == row[j - |pre|];
        }
      }
    }
  }

  /** A pump changes outputs only through the updaters, which keep every
      output's id; it leaves the session and the counter alone. */
  lemma {:induction false} PumpKeepsIds(st: State, s: Session)
    ensures var r := PumpSpec(st, s);
      SameIds(r.outputs, st.outputs) && r.session == st.session && r.nextId == st.nextId
    decreases |st.queue|
  {
    if CanPump(st) {
      var item := st.queue[0];
      if FindImage(s.images, item.sourceImageId).None? {
        var next := st.(outputs := UpdateOutput(st.outputs, item.outputId, ToError(SOURCE_NOT_FOUND)),
                        queue := st.queue[1..]);
        assert PumpSpec(st, s) == PumpSpec(next, s);
        PumpKeepsIds(next, s);
      }
    }
  }

  lemma PumpTimesKeepsIds(st: State, s: Session, n: nat)
    ensures var r := PumpTimes(st, s, n);
      SameIds(r.outputs, st.outputs) && r.session == st.session && r.nextId == st.nextId
  {
    if n > 0 {
      PumpTimesKeepsIds(st, s, n - 1);
      PumpKeepsIds(PumpTimes(st, s, n - 1), s);
    }
  }

  lemma SameIdsKeepFresh(st: State, r: State)
    requires IdsFresh(st)
    requires SameIds(r.outputs, st.outputs) && r.session == st.session && r.nextId == st.nextId
    ensures IdsFresh(r)
  {
    assert forall i :: 0 <= i < |r.outputs| ==> r.outputs[i].id == st.outputs[i].id;
  }

  lemma GenerateKeepsIdsFresh(st: State)
    requires IdsFresh(st)
    ensures IdsFresh(GenerateSpec(st))
  {
    if Ready(st.session) {
      var os := Product(st.session.images, PromptsToUse(st.session), st.nextId);
      ProductIds(st.session.images, PromptsToUse(st.session), st.nextId);
      var r := GenerateSpec(st);
      assert r.outputs == os && r.session == st.session && r.nextId == st.nextId + |os|;
    }
  }

  lemma StartEffectKeepsIdsFresh(st: State, s: Session)
    requires IdsFresh(st)
    ensures IdsFresh(StartEffectSpec(st, s))
  {
    PumpTimesKeepsIds(st, s, API_CONCURRENCY_LIMIT);
    SameIdsKeepFresh(st, StartEffectSpec(st, s));
  }

  lemma SettleKeepsIdsFresh(st: State, k: nat, outcome: GeminiService.Outcome, s: Session)
    requires IdsFresh(st) && k < |st.inFlight|
    ensures IdsFresh(SettleSpec(st, k, outcome, s))
  {
    var c := SettleCore(st, k, outcome);
    SameIdsKeepFresh(st, c);
    PumpKeepsIds(c, s);
    SameIdsKeepFresh(c, SettleSpec(st, k, outcome, s));
  }

  lemma EnqueueKeepsIds(st: State, id: int)
    ensures var q := RegenerateEnqueue(st, id);
      SameIds(q.outputs, st.outputs) && q.session == st.session && q.nextId == st.nextId
  {
  }

  lemma RegenerateKeepsIdsFresh(st: State, id: int, s: Session)
    requires IdsFresh(st)
    ensures IdsFresh(RegenerateSpec(st, id, s))
  {
    if FindOutput(st.outputs, id).Some? {
      var q := RegenerateEnqueue(st, id);
      EnqueueKeepsIds(st, id);
      SameIdsKeepFresh(st, q);
      PumpKeepsIds(q, s);
      SameIdsKeepFresh(q, PumpSpec(q, s));
    }
  }

  lemma AddImagesKeepsIdsFresh(st: State, data: seq<string>)
    requires IdsFresh(st)
    ensures IdsFresh(AddImagesSpec(st, data))
  {
    var r := AddImagesSpec(st, data);
    var old_ := st.session.images;
    var added := NewImages(data, st.nextId);
    assert r.session.images == old_ + added;
    forall i | 0 <= i < |r.session.images|
      ensures st.nextId <= r.session.images[i].id < r.nextId || (i < |old_| && r.session.images[i] == old_[i])
    {
      if i >= |old_| {
        assert r.session.images[i] == added[i - |old_|];
      }
    }
    forall i, j | 0 <= i < j < |r.session.images|
      ensures r.session.images[i].id != r.session.images[j].id
    {
      if j >= |old_| {
        assert r.session.images[j] == added[j - |old_|];
        if i >= |old_| {
          assert r.session.images[i] == added[i - |old_|];
        }
      }
    }
  }

  /** A new prompt takes the counter's id, which no prompt has yet. */
  lemma AddPromptKeepsIdsFresh(st: State, title: string, text: string)
    requires IdsFresh(st)
    ensures IdsFresh(AddPromptSpec(st, title, text))
  {
    var ps := AddPromptSpec(st, title, text).session.prompts;
    assert forall i :: 0 <= i < |st.session.prompts| ==> ps[i] == st.session.prompts[i];
  }

  /** The prompt filter keeps prompt ids fresh: the survivors are prompts
      that were there, so their ids stay below the counter and distinct. */
  lemma RemovePromptKeepsIdsFresh(st: State, id: int)
    requires IdsFresh(st)
    ensures IdsFresh(RemovePromptSpec(st, id))
  {
    var xs := st.session.prompts;
    var ps := RemovePromptById(xs, id);
    assert forall i :: 0 <= i < |ps| ==> ps[i].id < st.nextId by {
      forall i | 0 <= i < |ps|
        ensures ps[i].id < st.nextId
      {
        assert ps[i] in xs;
      }
    }
    assert forall i, j :: 0 <= i < j < |ps| ==> ps[i].id != ps[j].id by {
      assert forall i, j :: 0 <= i < j < |xs| ==> PromptId(xs[i]) != PromptId(xs[j]);
      FilterOutIdKeepsKeysDistinct(xs, PromptId, id);
      assert forall i, j :: 0 <= i < j < |ps| ==> PromptId(ps[i]) != PromptId(ps[j]);
    }
    assert RemovePromptSpec(st, id) == st.(session := st.session.(prompts := ps));
  }

  /** The image filter keeps image ids fresh, for the same reason. */
  lemma RemoveImageKeepsIdsFresh(st: State, id: int)
    requires IdsFresh(st)
    ensures IdsFresh(RemoveImageSpec(st, id))
  {
    var xs := st.session.images;
    var ims := RemoveImageById(xs, id);
    assert forall i :: 0 <= i < |ims| ==> ims[i].id < st.nextId by {
      forall i | 0 <= i < |ims|
        ensures ims[i].id < st.nextId
      {
        assert ims[i] in xs;
      }
    }
    assert forall i, j :: 0 <= i < j < |ims| ==> ims[i].id != ims[j].id by {
      assert forall i, j :: 0 <= i < j < |xs| ==> ImageId(xs[i]) != ImageId(xs[j]);
      FilterOutIdKeepsKeysDistinct(xs, ImageId, id);
      assert forall i, j :: 0 <= i < j < |ims| ==> ImageId(ims[i]) != ImageId(ims[j]);
    }
    assert RemoveImageSpec(st, id) == st.(session := st.session.(images := ims));
  }

  /** Ids are fresh initially and every event keeps them fresh: whatever
      the user and the network do, the next id handed out collides with no image, prompt or output, and
      no two images, no two prompts and no two outputs ever share an id. */
  lemma IdsStayFresh(st: State, e: Event)
    requires IdsFresh(st) && Enabled(st, e)
    ensures IdsFresh(InitialState())
    ensures IdsFresh(Step(st, e))
  {
    assert IdsFresh(InitialState());
    match e
    case Generate =>
      GenerateKeepsIdsFresh(st);
    case StartEffect(s) =>
      StartEffectKeepsIdsFresh(st, s);
    case Settle(k, attempts, s) =>
      SettleKeepsIdsFresh(st, k, CallOutcome(attempts), s);
    case Cancel =>
      SameIdsKeepFresh(st, CancelSpec(st));
    case Regenerate(id, s) =>
      RegenerateKeepsIdsFresh(st, id, s);
    case AddPrompt(title, text) =>
      AddPromptKeepsIdsFresh(st, title, text);
    case AddImages(data) =>
      AddImagesKeepsIdsFresh(st, data);
    case RemovePrompt(id) =>
      RemovePromptKeepsIdsFresh(st, id);
    case RemoveImage(id) =>
      RemoveImageKeepsIdsFresh(st, id);
    case _ =>
  }

  // ---------------------------------------------------------------------
  // Where the code departs from its apparent intent
  // ---------------------------------------------------------------------

  /** Cancel resets the count to 0 while its calls are still in flight;
      each of them still runs its finally block, so the first to settle
      takes the count to -1. */
  lemma CancelThenSettleGoesNegative(st: State, k: nat, outcome: GeminiService.Outcome, s: Session)
    requires k < |st.inFlight|
    ensures var r := SettleSpec(CancelSpec(st), k, outcome, s);
      && r.active == -1
      && !r.isGenerating
      && r.queue == []
  {
  }

  /** After a cancel that left calls in flight, a regenerate of an output
      whose source image is still there dispatches a new call at once: the
      count says 1, but one more call than before is in flight. Two such
      regenerates put 2 + |inFlight| calls in flight against a ceiling of 2. */
  lemma RegenerateAfterCancelOverlaps(st: State, outputId: int, k: int, s: Session)
    requires FirstWithId(st.outputs, outputId, k)
    requires FindImage(s.images, st.outputs[k].sourceImageId).Some?
    ensures var r := RegenerateSpec(CancelSpec(st), outputId, s);
      && r.active == 1
      && |r.inFlight| == |st.inFlight| + 1
      && r.isGenerating
      && r.controller == Present(false)
  {
    var c := CancelSpec(st);
    assert FirstWithId(c.outputs, outputId, k);
    RegenerateKnownId(c, outputId, k, s);
    var e := RegenerateEnqueue(c, outputId);
    assert e.queue == [QueueItem(outputId, st.outputs[k].sourceImageId, st.outputs[k].promptId)];
    assert CanPump(e);
  }

  /** A regenerate while idle of an output whose source image has been
      removed sets the flag, fails the output as "Source image not found."
      through the missing-source path, and leaves the flag set with an empty
      queue, a zero count and no new call: nothing is left that would clear
      it. */
  lemma MissingSourceLeavesFlagSet(st: State, outputId: int, k: int, s: Session)
    requires !st.isGenerating && st.queue == [] && st.active == 0
    requires FirstWithId(st.outputs, outputId, k)
    requires FindImage(s.images, st.outputs[k].sourceImageId).None?
    ensures var r := RegenerateSpec(st, outputId, s);
      && r.isGenerating
      && r.queue == []
      && r.active == 0
      && r.inFlight == st.inFlight
      && (forall i :: 0 <= i < |r.outputs| && r.outputs[i].id == outputId ==>
            r.outputs[i].status == Error && r.outputs[i].error == Some(SOURCE_NOT_FOUND))
      && StartEffectSpec(r, s) == r
  {
    RegenerateKnownId(st, outputId, k, s);
    var e := RegenerateEnqueue(st, outputId);
    var m := e.(outputs := UpdateOutput(e.outputs, outputId, ToError(SOURCE_NOT_FOUND)), queue := []);
    assert PumpSpec(e, s) == m by {
      assert CanPump(e) && e.queue[0].outputId == outputId;
      assert e.queue[1..] == [];
      assert !CanPump(m);
    }
    assert StartEffectSpec(m, s) == m;
  }

  /** A call still in flight at cancel time settles later and overwrites
      its output: a success turns a "Cancelled by user." card into
      `complete` with an image while its error text stays set; a failure
      replaces the cancellation message with its own. */
  lemma SettleAfterCancelOverwrites(st: State, k: nat, outcome: GeminiService.Outcome, s: Session)
    requires k < |st.inFlight|
    ensures var r := SettleSpec(CancelSpec(st), k, outcome, s);
      var id := st.inFlight[k].outputId;
      && |r.outputs| == |st.outputs|
      && (forall i :: 0 <= i < |st.outputs| && st.outputs[i].id == id && Unfinished(st.outputs[i]) ==>
            && (outcome.Success? ==>
                  r.outputs[i].status == Complete && r.outputs[i].imageUrl == Some(outcome.url)
                  && r.outputs[i].error == Some(CANCELLED))
            && (outcome.Failure? ==>
                  r.outputs[i].status == Error && r.outputs[i].error == Some(SettleMessage(outcome.err))))
  {
  }

  /** The pre-attempt abort throws an error whose message, not name, is
      "AbortError". Attempt 0 runs at dispatch, under a live controller, but
      a cancel that lands during a backoff sleep aborts the signal the later
      attempts check: when attempt 1 fails retryably (it too found the
      signal aborted, or the service failed) and attempt 2 finds the signal
      aborted, the call settles with that error and its card shows
      "AbortError", not "Cancelled by user.". */
  lemma AbortedCallShowsRawMessage(st: State, k: nat, attempts: seq<GeminiService.Attempt>, s: Session)
    requires Enabled(st, Settle(k, attempts, s))
    requires GeminiService.Retryable(GeminiService.AttemptOutcome(attempts[0]))
    requires GeminiService.Retryable(GeminiService.AttemptOutcome(attempts[1]))
    requires attempts[2].signalAborted
    ensures CallOutcome(attempts) == GeminiService.Failure(GeminiService.JsError("Error", "AbortError"))
    ensures forall i :: 0 <= i < |st.outputs| && st.outputs[i].id == st.inFlight[k].outputId ==>
        && SettleCore(st, k, CallOutcome(attempts)).outputs[i].status == Error
        && SettleCore(st, k, CallOutcome(attempts)).outputs[i].error == Some("AbortError")
  {
    assert CallOutcome(attempts) == GeminiService.Failure(GeminiService.JsError("Error", "AbortError")) by {
      GeminiService.PersistentFailure(attempts);
    }
  }
}
