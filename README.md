# Image uploader: a verified model

This project models the `ImageUploader` React component of a small bill-image
upload page. The component runs this lifecycle for a single image:

1. The user chooses a file. The change handler checks that its MIME type starts with
   `image/`, then that it is not larger than 10 MiB. A refused file only shows an error
   toast. An accepted file starts a read into a data URL.
2. When the read completes, the data URL becomes `image` and processing starts on it:
   `isProcessing` is set, the code waits (a simulated enhancement), then it stores the
   same URL as `enhancedImage` and calls `onImageProcessed(url, url)`. A `finally` block
   clears `isProcessing`.
3. The Clear button drops both images and empties the file input.
4. The zoom button, or a click on the original image, flips `isZoomed`.
5. The render function picks a view. It shows the upload card when `image` is falsy.
   Otherwise it shows the original image beside a pane, and that pane is one of:
   the spinner with a "Processing..." label; the enhanced image with a Clear button;
   or a "Processing image..." placeholder.

Files:

- `options.dfy`: the `Option` type, standing for `string | null`.
- `file_validation.dfy` (module `FileValidation`): the file checks as pure predicates.
  `Rejection` gives the reason a file is refused. Lemmas cover the order of the checks,
  the exact size bound, and a reference definition of "starts with".
- `uploader_state.dfy` (module `UploaderState`): the component state as a value.
  `Step` is the transition each handler makes. `View` is the render-branch selection.
  `Consistent` is the invariant of sequential use, and `Enabled` says which events can
  come next.
- `image_uploader.dfy` (module `Component`): class `ImageUploader`. Its fields are the
  ones the component updates in place. `OnLoad`, `FinishProcessing`, `Clear` and
  `ToggleZoom` state the new field values and that the new state equals the matching
  `Step`. `BeginProcessing` states the one field it sets. `SelectFile` has no `modifies`
  clause, so it changes no field. Two client scenarios sit beside the class.
- `traces.dfy` (module `Traces`): `Run` applies a sequence of events in order.
  Inductive lemmas say the callback fires once per completed processing, always with
  identical arguments, and that sequential use keeps the invariant.

Modelling choices:

- `Outcome` says how the awaited enhancement step ends:
  - `Succeeded`;
  - `EnhanceFailed`: the awaited step rejects before the enhanced image is stored;
  - `CallbackThrew`: the parent's callback throws. `enhancedImage` has already been
    stored and the callback has been invoked. The catch block shows an error toast.

  The simulated delay itself never fails, so the parent's callback is the only thing
  in the `try` block that can throw.
- The view follows JavaScript truthiness. `!image` and `enhancedImage ? … : …` treat
  the empty string like `null` (`UploaderState.Truthy`).
- `Finish(url, outcome)` carries the URL captured by the pending `processImage(url)`
  call. `Enabled` rules out overlapping asynchronous work:
  - a read may complete only while no processing is pending;
  - a pending processing belongs to the current image;
  - Clear and zoom need their buttons on screen.

Facts about the code that the model keeps:

- Loading a new image does not clear `enhancedImage`. In sequential use a stale enhanced
  image reaches the screen only if the awaited enhancement rejects (`EnhanceFailed`). The
  preview then shows the new original beside the old enhanced image
  (`Traces.StaleEnhancedAfterFailedReload`). The current 1500 ms timer never rejects.
- When the callback throws (`CallbackThrew`), the new URL has already been stored as
  `enhancedImage`, so the preview shows it (`Traces.ReloadWithThrowingCallback`).
  In sequential use without a rejecting enhancement, the enhanced image of a settled
  state is always the current original (`Traces.EnhancedStaysCurrent`).
- Outside sequential use the code shows a stale image without any rejection. The
  "New Image" button stays on screen under the spinner. A second file can therefore be
  read while the first is still processing. The first processing then stores and reports
  the first image beside the second original. It also clears `isProcessing` while the
  second is still pending (`Traces.OverlappingReloadShowsStale`).
- Clear does not reset `isProcessing`. In sequential use this makes no difference,
  because the Clear button is only on screen when nothing is processing.
- The code keeps four independent fields and no phase variable, and so does the model.

## Model

| member | source | states |
|---|---|---|
| FileValidation.Rejection | src/components/ImageUploader.tsx:30-40 | no reason exactly when the file is accepted; the type error exactly when the type does not start with `image/`; the size error exactly when it is an image type over 10485760 bytes |
| FileValidation.StartsWithIffPrefixed | src/components/ImageUploader.tsx:31 | the `startsWith` test holds exactly when the string is the prefix followed by some rest |
| FileValidation.AcceptsCharacterized | src/components/ImageUploader.tsx:30-40 | a file is accepted exactly when its type is `image/` followed by anything and its size is at most 10485760 |
| FileValidation.TypeCheckedFirst | src/components/ImageUploader.tsx:31-40 | a non-image file that is also oversized reports the type error, never the size error |
| FileValidation.SizeBoundary | src/components/ImageUploader.tsx:37-40 | the limit `10 * 1024 * 1024` is 10485760 bytes; an image of exactly that size is accepted; one byte more gets the size error |
| UploaderState.View | src/components/ImageUploader.tsx:85-174 | upload card exactly when `image` is falsy; otherwise the original with the zoom flag, and the spinner exactly when processing, the enhanced image exactly when not processing and `enhancedImage` is truthy, else the placeholder |
| UploaderState.InitialConsistent | src/components/ImageUploader.tsx:14-17 | the initial state satisfies the invariant and shows the upload card |
| UploaderState.StepKeepsConsistent | src/components/ImageUploader.tsx:43-81 | every enabled transition keeps the invariant: a held image is non-empty, processing runs only on a held image, an enhanced image is held only beside an original |
| UploaderState.UploadCardMeansEmpty | src/components/ImageUploader.tsx:85 | under the invariant, the upload card is shown exactly when no image, no enhanced image and no processing is held |
| UploaderState.LoadShowsSpinner | src/components/ImageUploader.tsx:43-53 | after a load, `image` is the read result and the view is the original beside the spinner; no callback |
| UploaderState.FinishSucceeded | src/components/ImageUploader.tsx:51-73 | a successful completion stores its input as the enhanced image, calls back with identical arguments, ends processing and shows the success toast |
| UploaderState.FinishFailed | src/components/ImageUploader.tsx:52-72 | a completion whose awaited step rejects keeps the enhanced image, does not call back, still ends processing and shows the error toast |
| UploaderState.ClearIdempotent | src/components/ImageUploader.tsx:75-81 | Clear keeps the processing and zoom flags, shows the upload card, and a second Clear changes nothing |
| UploaderState.ToggleZoomInvolution | src/components/ImageUploader.tsx:127-137 | a toggle flips only `isZoomed`; toggling twice restores the state |
| Component.ImageUploader.constructor | src/components/ImageUploader.tsx:14-19 | the fields start as null, null, false, false and an empty input |
| Component.ImageUploader.SelectFile | src/components/ImageUploader.tsx:26-49 | no file gives no action; otherwise a read starts exactly when the file is accepted, and a refusal carries the validator's reason; no field changes |
| Component.ImageUploader.OnLoad | src/components/ImageUploader.tsx:43-47 | `image` becomes the read result, processing starts on that same string, the other fields are unchanged |
| Component.ImageUploader.BeginProcessing | src/components/ImageUploader.tsx:51-53 | sets `isProcessing` and changes nothing else |
| Component.ImageUploader.FinishProcessing | src/components/ImageUploader.tsx:51-73 | when the callback is reached, `enhancedImage` is the input and the callback fires once with (input, input); otherwise `enhancedImage` is unchanged and nothing fires; `isProcessing` is false either way; the toast matches the outcome |
| Component.ImageUploader.Clear | src/components/ImageUploader.tsx:75-81 | `image` and `enhancedImage` become null and the input value ""; `isProcessing` and `isZoomed` are unchanged |
| Component.ImageUploader.ToggleZoom | src/components/ImageUploader.tsx:127-137 | `isZoomed` is negated, nothing else changes |
| Component.SmallPngScenario | src/components/ImageUploader.tsx:26-73 | a 2 KB PNG is read, processed, reported once with identical arguments, and shown enhanced with the Clear button |
| Component.RefusedFilesScenario | src/components/ImageUploader.tsx:26-40 | a 15 MB JPEG gets the size error, a text file the type error, and the upload card stays |
| Traces.CallbackPerCompletion | src/components/ImageUploader.tsx:61-64 | over any event sequence the callback fires exactly once per completion that reaches it, in order, each time with the processed URL as both arguments |
| Traces.SequentialRunConsistent | src/components/ImageUploader.tsx:43-81 | every sequential run keeps the invariant |
| Traces.CallbackReportsLoadedImage | src/components/ImageUploader.tsx:43-64 | in sequential use the callback only reports an image that was held at the start or delivered by a read |
| Traces.UploadCycle | src/components/ImageUploader.tsx:43-81 | load, success and clear: one callback with identical arguments, the enhanced view with Clear, then the upload card with an empty input |
| Traces.StaleEnhancedAfterFailedReload | src/components/ImageUploader.tsx:43-73 | after a success on one image, a reload whose awaited enhancement rejects shows the new original beside the old enhanced image |
| Traces.ReloadWithThrowingCallback | src/components/ImageUploader.tsx:43-73 | after a success on one image, a reload whose callback throws shows the new original as the enhanced image too |
| Traces.OverlappingReloadShowsStale | src/components/ImageUploader.tsx:43-73 | a second read during the first processing, then the first completion: the run is not sequential, the callback reports the first image once, and the preview shows the first image as enhanced beside the second original |
| Traces.EnhancedStaysCurrent | src/components/ImageUploader.tsx:43-81 | in sequential use where the awaited enhancement never rejects, a held enhanced image is the current original whenever processing has settled |

## Left out

- src/components/Header.tsx: static markup with no state or logic.
- FileReader and `readAsDataURL`: the read is an external asynchronous API. Its result is a parameter of `OnLoad`.
- The 1500 ms `setTimeout` and `async`/`await`: processing is split into `BeginProcessing` and `FinishProcessing`. How the awaited step ends is the `Outcome` parameter.
- Toast texts and `console.error`: foreign side effects. They appear only as the `Rejected` reason and the `Notice` tag.
- `handleButtonClick` (`fileInputRef.current?.click()`): it only opens the browser's file dialog.
- The `accept="image/*"` filter of the dialog and the "PNG, JPG or PDF" hint text: the handler's own type check is what the model validates.
- `useIsMobile`, the JSX markup, the class names and the icons: presentation only.
- Overlapping asynchronous work, such as a new file being read while a processing is pending: transitions are atomic, and `Enabled` excludes such interleavings from the sequential-run lemmas. `Step` itself still accepts any event, and `Traces.OverlappingReloadShowsStale` exhibits one such interleaving.
- Component.ImageUploader.Clear: drops the `if (fileInputRef.current)` guard. The guard always holds when Clear can run: the Clear button exists only in the preview branch, and that branch mounts the input that carries `ref={fileInputRef}` (src/components/ImageUploader.tsx:180-187). The input value that the browser writes when a file is chosen is not modelled, and neither is the remount of the second input. `inputValue` therefore records only the reset and is "" in every reachable state, so `ensures inputValue == ""` tells a caller nothing beyond the reset itself.
