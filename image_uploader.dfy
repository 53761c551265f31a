/**
 * The image uploader component as an object: its state fields are updated in
 * place by its handlers, each of which is tied to the transition it makes.
 */
module Component {
  import opened Options
  import opened FileValidation
  import opened UploaderState

  class ImageUploader {
    var image: Option<string>
    var enhancedImage: Option<string>
    var isProcessing: bool
    var isZoomed: bool
    /**
     * The `value` of the element the file-input ref points at. Only the reset
     * that Clear performs is recorded; the browser's own write when a file is
     * chosen is not modelled.
     */
    var inputValue: string

    /** The fields as a state value. */
    function Snapshot(): State
      reads this
    {
      State(image, enhancedImage, isProcessing, isZoomed, inputValue)
    }

    constructor ()
      ensures Snapshot() == Initial
    {
      image, enhancedImage := None, None;
      isProcessing, isZoomed := false, false;
      inputValue := "";
    }

    /**
     * The change handler of the file input. It changes no field: a rejected
     * file only shows an error toast, and an accepted one only starts a read,
     * whose result arrives later through `OnLoad`.
     */
    method SelectFile(file: Option<FileInfo>) returns (v: Verdict)
      ensures v == NoFile <==> file.None?
      ensures file.Some? ==> (v == ReadStarted <==> Accepts(file.value.mime, file.value.size))
      ensures file.Some? && v.Rejected? ==> Rejection(file.value.mime, file.value.size) == Some(v.reason)
    {
      if file.None? {
        return NoFile;
      }
      var f := file.value;
      if !StartsWith(f.mime, "image/") {
        return Rejected(TypeError);
      }
      if f.size > 10 * 1024 * 1024 {
        return Rejected(SizeError);
      }
      return ReadStarted;
    }

    /** The reader's `onload`: store the result and start processing that same string. */
    method OnLoad(result: string) returns (processing: string)
      modifies this
      ensures image == Some(result) && isProcessing && processing == result
      ensures enhancedImage == old(enhancedImage) && isZoomed == old(isZoomed) && inputValue == old(inputValue)
      ensures Snapshot() == Step(old(Snapshot()), Load(result)).state
    {
      image := Some(result);
      processing := result;
      BeginProcessing();
    }

    /** The synchronous start of `processImage`, before it awaits the enhancement. */
    method BeginProcessing()
      modifies this`isProcessing
      ensures isProcessing
    {
      isProcessing := true;
    }

    /**
     * The rest of `processImage(url)` once the awaited step settles: the try
     * block, the catch on failure, and the finally that always ends processing.
     */
    method FinishProcessing(url: string, outcome: Outcome) returns (fired: Option<Callback>, notice: Notice)
      modifies this`enhancedImage, this`isProcessing
      ensures ReachesCallback(outcome) ==> enhancedImage == Some(url) && fired == Some(Callback(url, url))
      ensures !ReachesCallback(outcome) ==> enhancedImage == old(enhancedImage) && fired == None
      ensures !isProcessing
      ensures notice == if outcome == Succeeded then SuccessToast else ErrorToast
      ensures Snapshot() == Step(old(Snapshot()), Finish(url, outcome)).state
      ensures fired == Step(old(Snapshot()), Finish(url, outcome)).fired
      ensures Some(notice) == Step(old(Snapshot()), Finish(url, outcome)).notice
    {
      if outcome == EnhanceFailed {
        fired := None;
        notice := ErrorToast;
      } else {
        enhancedImage := Some(url);
        fired := Some(Callback(url, url));
        notice := if outcome == Succeeded then SuccessToast else ErrorToast;
      }
      isProcessing := false;
    }

    /** The Clear button: drop both images and reset the file input; no callback. */
    method Clear()
      modifies this`image, this`enhancedImage, this`inputValue
      ensures image == None && enhancedImage == None && inputValue == ""
      ensures isProcessing == old(isProcessing) && isZoomed == old(isZoomed)
      ensures Snapshot() == Step(old(Snapshot()), ClearImage).state
    {
      image := None;
      enhancedImage := None;
      inputValue := "";
    }

    /** The zoom button and a click on the original image. */
    method ToggleZoom()
      modifies this`isZoomed
      ensures isZoomed == !old(isZoomed)
      ensures Snapshot() == Step(old(Snapshot()), Event.ToggleZoom).state
    {
      isZoomed := !isZoomed;
    }
  }

  /**
   * A small PNG on a fresh uploader: the read starts, and once it is loaded
   * and processed the callback has fired once with identical arguments and
   * the enhanced image is shown with its Clear button.
   */
  method SmallPngScenario(dataUrl: string) returns (verdict: Verdict, fired: Option<Callback>, shown: Screen)
    requires dataUrl != ""
    ensures verdict == ReadStarted
    ensures fired == Some(Callback(dataUrl, dataUrl))
    ensures shown == Preview(dataUrl, false, EnhancedPane(dataUrl)) && ShowsClear(shown)
  {
    var u := new ImageUploader();
    verdict := u.SelectFile(Some(FileInfo("image/png", 2048)));
    var processing := u.OnLoad(dataUrl);
    var notice;
    fired, notice := u.FinishProcessing(processing, Succeeded);
    shown := View(u.Snapshot());
  }

  /** A 15 MB JPEG and a text file are refused at once, and the upload card stays. */
  method RefusedFilesScenario() returns (jpeg: Verdict, text: Verdict, shown: Screen)
    ensures jpeg == Rejected(SizeError)
    ensures text == Rejected(TypeError)
    ensures shown == UploadCard
  {
    var u := new ImageUploader();
    jpeg := u.SelectFile(Some(FileInfo("image/jpeg", 15000000)));
    assert "text/plain"[..6][0] != "image/"[0];
    text := u.SelectFile(Some(FileInfo("text/plain", 2048)));
    shown := View(u.Snapshot());
  }
}
