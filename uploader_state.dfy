/**
 * The state of the image uploader component as a value, the transitions its
 * handlers make, and the panel its render function selects.
 */
module UploaderState {
  import opened Options

  /**
   * The component's four state fields and the value of its file input.
   * `image` and `enhancedImage` are the `string | null` data URLs.
   * `inputValue` records only the reset that Clear performs; the value the
   * browser writes when a file is chosen is not modelled, so it is "" in
   * every state reachable from `Initial`.
   */
  datatype State = State(
    image: Option<string>,
    enhancedImage: Option<string>,
    isProcessing: bool,
    isZoomed: bool,
    inputValue: string)

  /** The state on first render. */
  const Initial: State := State(None, None, false, false, "")

  /** JavaScript truthiness of a `string | null`: both null and "" are falsy. */
  predicate Truthy(o: Option<string>) {
    o.Some? && o.value != ""
  }

  /**
   * How the simulated enhancement ends. `EnhanceFailed`: the awaited step
   * rejects before the enhanced image is stored. `CallbackThrew`: the parent's
   * callback throws after the enhanced image was stored.
   */
  datatype Outcome = Succeeded | EnhanceFailed | CallbackThrew

  /** One invocation of `onImageProcessed(original, enhanced)`. */
  datatype Callback = Callback(original: string, enhanced: string)

  /** The toast shown when processing ends. */
  datatype Notice = SuccessToast | ErrorToast

  /**
   * The events that change state: the reader's `onload` with its result,
   * the end of a pending `processImage(url)`, the Clear button, and a click
   * on the zoom button or the original image.
   */
  datatype Event = Load(result: string) | Finish(url: string, outcome: Outcome) | ClearImage | ToggleZoom

  /** The new state, the callback invocation if one happened, and the toast if one was shown. */
  datatype Transition = Transition(state: State, fired: Option<Callback>, notice: Option<Notice>)

  /** Whether the callback is reached on the way to the given outcome. */
  predicate ReachesCallback(o: Outcome) {
    o != EnhanceFailed
  }

  /** One atomic step of the component. */
  function Step(s: State, e: Event): Transition {
    match e
    case Load(r) =>
      Transition(s.(image := Some(r), isProcessing := true), None, None)
    case Finish(url, o) =>
      Transition(
        s.(enhancedImage := if ReachesCallback(o) then Some(url) else s.enhancedImage,
           isProcessing := false),
        if ReachesCallback(o) then Some(Callback(url, url)) else None,
        Some(if o == Succeeded then SuccessToast else ErrorToast))
    case ClearImage =>
      Transition(s.(image := None, enhancedImage := None, inputValue := ""), None, None)
    case ToggleZoom =>
      Transition(s.(isZoomed := !s.isZoomed), None, None)
  }

  /** The right-hand pane of the preview (its header and its body follow the same test). */
  datatype Pane = Spinner | EnhancedPane(url: string) | Placeholder

  /** What is rendered: the upload card, or the side-by-side preview. */
  datatype Screen = UploadCard | Preview(original: string, zoomed: bool, pane: Pane)

  /** The render branch selection. */
  function View(s: State): (v: Screen)
    ensures v.UploadCard? <==> !Truthy(s.image)
    ensures v.Preview? ==> v.original == s.image.value && v.zoomed == s.isZoomed
    ensures v.Preview? ==> (v.pane.Spinner? <==> s.isProcessing)
    ensures v.Preview? ==> (v.pane.EnhancedPane? <==> !s.isProcessing && Truthy(s.enhancedImage))
    ensures v.Preview? && v.pane.EnhancedPane? ==> v.pane.url == s.enhancedImage.value
  {
    if !Truthy(s.image) then UploadCard
    else
      Preview(s.image.value, s.isZoomed,
        if s.isProcessing then Spinner
        else if Truthy(s.enhancedImage) then EnhancedPane(s.enhancedImage.value)
        else Placeholder)
  }

  /** The Clear button is in the pane header exactly when the enhanced image is shown. */
  predicate ShowsClear(v: Screen) {
    v.Preview? && v.pane.EnhancedPane?
  }

  /** The "Processing..." label is in the pane header exactly when the spinner is shown. */
  predicate ShowsProcessingLabel(v: Screen) {
    v.Preview? && v.pane.Spinner?
  }

  /**
   * The events that can happen next when each transition runs to completion
   * before the next begins: a read finishes only while no processing is
   * pending, and its data URL is never empty; a pending processing was
   * started on the current image; Clear and zoom need their buttons on screen.
   */
  predicate Enabled(s: State, e: Event) {
    match e
    case Load(r) => !s.isProcessing && r != ""
    case Finish(url, _) => s.isProcessing && s.image == Some(url)
    case ClearImage => ShowsClear(View(s))
    case ToggleZoom => View(s).Preview?
  }

  /**
   * The invariant of sequential use: a held image is never the empty string,
   * processing only ever runs on a held image, and an enhanced image is only
   * held beside an original one.
   */
  predicate Consistent(s: State) {
    && (s.image.Some? ==> Truthy(s.image))
    && (s.isProcessing ==> s.image.Some?)
    && (s.enhancedImage.Some? ==> Truthy(s.image) && Truthy(s.enhancedImage))
  }

  lemma InitialConsistent()
    ensures Consistent(Initial)
    ensures View(Initial) == UploadCard
  {
  }

  /** Every enabled event keeps the invariant. */
  lemma StepKeepsConsistent(s: State, e: Event)
    requires Consistent(s) && Enabled(s, e)
    ensures Consistent(Step(s, e).state)
  {
  }

  /** In a consistent state the upload card means nothing is held and nothing is pending. */
  lemma UploadCardMeansEmpty(s: State)
    requires Consistent(s)
    ensures View(s) == UploadCard <==> s.image.None? && s.enhancedImage.None? && !s.isProcessing
  {
  }

  /** After a load the original is shown beside the spinner, and processing runs on the read result. */
  lemma LoadShowsSpinner(s: State, r: string)
    requires r != ""
    ensures Step(s, Load(r)).state.image == Some(r)
    ensures View(Step(s, Load(r)).state) == Preview(r, s.isZoomed, Spinner)
    ensures Step(s, Load(r)).fired == None
  {
  }

  /**
   * Successful processing stores its input as the enhanced image, calls back
   * once with identical arguments, ends processing, and shows a success toast.
   */
  lemma FinishSucceeded(s: State, url: string)
    ensures Step(s, Finish(url, Succeeded)).state.enhancedImage == Some(url)
    ensures Step(s, Finish(url, Succeeded)).fired == Some(Callback(url, url))
    ensures !Step(s, Finish(url, Succeeded)).state.isProcessing
    ensures Step(s, Finish(url, Succeeded)).notice == Some(SuccessToast)
  {
  }

  /**
   * A failure before the enhanced image is stored keeps the enhanced image,
   * does not call back, still ends processing, and shows an error toast.
   */
  lemma FinishFailed(s: State, url: string)
    ensures Step(s, Finish(url, EnhanceFailed)).state.enhancedImage == s.enhancedImage
    ensures Step(s, Finish(url, EnhanceFailed)).fired == None
    ensures !Step(s, Finish(url, EnhanceFailed)).state.isProcessing
    ensures Step(s, Finish(url, EnhanceFailed)).notice == Some(ErrorToast)
  {
  }

  /** Clear leaves the flags alone, and a second Clear changes nothing more. */
  lemma ClearIdempotent(s: State)
    ensures Step(s, ClearImage).state.isProcessing == s.isProcessing
    ensures Step(s, ClearImage).state.isZoomed == s.isZoomed
    ensures Step(Step(s, ClearImage).state, ClearImage) == Step(s, ClearImage)
    ensures View(Step(s, ClearImage).state) == UploadCard
  {
  }

  /** Toggling zoom twice restores the state; a toggle never touches the image fields. */
  lemma ToggleZoomInvolution(s: State)
    ensures Step(Step(s, ToggleZoom).state, ToggleZoom).state == s
    ensures Step(s, ToggleZoom).state.(isZoomed := s.isZoomed) == s
    ensures Step(s, ToggleZoom).state.isZoomed != s.isZoomed
  {
  }
}
