/**
 * Sequences of events run through the uploader one after another, and what
 * they promise about the callback and about the state.
 */
module Traces {
  import opened Options
  import opened UploaderState

  /** The state after a run and the callback invocations it made, in order. */
  datatype RunResult = RunResult(final: State, callbacks: seq<Callback>)

  function Fired(t: Transition): seq<Callback> {
    if t.fired.Some? then [t.fired.value] else []
  }

  /** Apply the events in order, collecting the callback invocations. */
  function Run(s: State, es: seq<Event>): RunResult
    decreases |es|
  {
    if es == [] then RunResult(s, [])
    else
      var t := Step(s, es[0]);
      var rest := Run(t.state, es[1..]);
      RunResult(rest.final, Fired(t) + rest.callbacks)
  }

  /** The urls of the processing completions that reach the callback, read off the events alone. */
  function CompletedUrls(es: seq<Event>): seq<string>
    decreases |es|
  {
    if es == [] then []
    else (if es[0].Finish? && ReachesCallback(es[0].outcome) then [es[0].url] else []) + CompletedUrls(es[1..])
  }

  /** The results of the reads that completed during the events. */
  function LoadedResults(es: seq<Event>): set<string>
    decreases |es|
  {
    if es == [] then {}
    else (if es[0].Load? then {es[0].result} else {}) + LoadedResults(es[1..])
  }

  /** Every event is enabled in the state the previous ones leave. */
  predicate Sequential(s: State, es: seq<Event>)
    decreases |es|
  {
    es == [] || (Enabled(s, es[0]) && Sequential(Step(s, es[0]).state, es[1..]))
  }

  /**
   * Whatever the events, the callback fires exactly once per completion that
   * reaches it, in the same order, and each time with the processed url as
   * both the original and the enhanced argument.
   */
  lemma {:induction false} CallbackPerCompletion(s: State, es: seq<Event>)
    decreases |es|
    ensures |Run(s, es).callbacks| == |CompletedUrls(es)|
    ensures forall i :: 0 <= i < |CompletedUrls(es)| ==>
      Run(s, es).callbacks[i] == Callback(CompletedUrls(es)[i], CompletedUrls(es)[i])
  {
    if es != [] {
      CallbackPerCompletion(Step(s, es[0]).state, es[1..]);
    }
  }

  /** The invariant holds after every sequential run that starts where it holds. */
  lemma {:induction false} SequentialRunConsistent(s: State, es: seq<Event>)
    requires Consistent(s) && Sequential(s, es)
    ensures Consistent(Run(s, es).final)
    decreases |es|
  {
    if es != [] {
      StepKeepsConsistent(s, es[0]);
      SequentialRunConsistent(Step(s, es[0]).state, es[1..]);
    }
  }

  /**
   * In a sequential run the callback only reports an image that was held at
   * the start or that a read delivered during the run.
   */
  lemma {:induction false} CallbackReportsLoadedImage(s: State, es: seq<Event>)
    requires Sequential(s, es)
    ensures forall u :: u in CompletedUrls(es) ==> u in LoadedResults(es) || s.image == Some(u)
    decreases |es|
  {
    if es != [] {
      CallbackReportsLoadedImage(Step(s, es[0]).state, es[1..]);
    }
  }

  /**
   * One full cycle from a settled state: load, process successfully, clear.
   * The callback fires once with identical arguments, the enhanced image is
   * shown with its Clear button, and Clear brings back the upload card with
   * an empty file input.
   */
  lemma UploadCycle(s: State, r: string)
    requires Consistent(s) && !s.isProcessing && r != ""
    ensures Sequential(s, [Load(r), Finish(r, Succeeded), ClearImage])
    ensures Run(s, [Load(r), Finish(r, Succeeded)]).callbacks == [Callback(r, r)]
    ensures View(Run(s, [Load(r), Finish(r, Succeeded)]).final) == Preview(r, s.isZoomed, EnhancedPane(r))
    ensures Run(s, [Load(r), Finish(r, Succeeded), ClearImage]).callbacks == [Callback(r, r)]
    ensures View(Run(s, [Load(r), Finish(r, Succeeded), ClearImage]).final) == UploadCard
    ensures Run(s, [Load(r), Finish(r, Succeeded), ClearImage]).final.inputValue == ""
  {
    var s1 := Step(s, Load(r)).state;
    var s2 := Step(s1, Finish(r, Succeeded)).state;
    var s3 := Step(s2, ClearImage).state;
    assert [Load(r), Finish(r, Succeeded), ClearImage][1..] == [Finish(r, Succeeded), ClearImage];
    assert [Finish(r, Succeeded), ClearImage][1..] == [ClearImage];
    assert [Load(r), Finish(r, Succeeded)][1..] == [Finish(r, Succeeded)];
    assert Run(s2, [ClearImage]) == RunResult(s3, []);
    assert Run(s1, [Finish(r, Succeeded)]) == RunResult(s2, [Callback(r, r)]);
  }

  /**
   * A new image does not drop the previous enhanced image: if the awaited
   * enhancement of the new image rejects, the preview shows the new original
   * beside the old enhanced image, with the Clear button.
   */
  lemma StaleEnhancedAfterFailedReload(a: string, b: string)
    requires a != "" && b != ""
    ensures Sequential(Initial, [Load(a), Finish(a, Succeeded), Load(b), Finish(b, EnhanceFailed)])
    ensures View(Run(Initial, [Load(a), Finish(a, Succeeded), Load(b), Finish(b, EnhanceFailed)]).final)
      == Preview(b, false, EnhancedPane(a))
  {
    var es := [Load(a), Finish(a, Succeeded), Load(b), Finish(b, EnhanceFailed)];
    var s1 := Step(Initial, es[0]).state;
    var s2 := Step(s1, es[1]).state;
    var s3 := Step(s2, es[2]).state;
    var s4 := Step(s3, es[3]).state;
    assert es[1..][1..][1..][1..] == [];
    assert Run(s3, es[1..][1..][1..]).final == s4;
    assert Run(s2, es[1..][1..]).final == s4;
    assert Run(s1, es[1..]).final == s4;
    assert Sequential(s3, es[1..][1..][1..]);
    assert Sequential(s2, es[1..][1..]);
    assert Sequential(s1, es[1..]);
  }

  /** When the callback throws, the reloaded image has already become the enhanced one. */
  lemma ReloadWithThrowingCallback(a: string, b: string)
    requires a != "" && b != ""
    ensures Sequential(Initial, [Load(a), Finish(a, Succeeded), Load(b), Finish(b, CallbackThrew)])
    ensures View(Run(Initial, [Load(a), Finish(a, Succeeded), Load(b), Finish(b, CallbackThrew)]).final)
      == Preview(b, false, EnhancedPane(b))
  {
    var es := [Load(a), Finish(a, Succeeded), Load(b), Finish(b, CallbackThrew)];
    var s1 := Step(Initial, es[0]).state;
    var s2 := Step(s1, es[1]).state;
    var s3 := Step(s2, es[2]).state;
    var s4 := Step(s3, es[3]).state;
    assert es[1..][1..][1..][1..] == [];
    assert Run(s3, es[1..][1..][1..]).final == s4;
    assert Run(s2, es[1..][1..]).final == s4;
    assert Run(s1, es[1..]).final == s4;
    assert Sequential(s3, es[1..][1..][1..]);
    assert Sequential(s2, es[1..][1..]);
    assert Sequential(s1, es[1..]);
  }

  /** Once processing has settled, a held enhanced image is the current original. */
  predicate EnhancedIsCurrent(s: State) {
    s.enhancedImage.Some? && !s.isProcessing ==> s.enhancedImage == s.image
  }

  /** No completion in the events ends with the awaited enhancement rejecting. */
  predicate EnhancementNeverRejects(es: seq<Event>) {
    forall i :: 0 <= i < |es| ==> !(es[i].Finish? && es[i].outcome == EnhanceFailed)
  }

  /**
   * As long as the awaited enhancement never rejects (the simulated delay
   * never does), sequential use never shows a stale enhanced image: once
   * processing has settled, the enhanced image is the current original.
   */
  lemma {:induction false} EnhancedStaysCurrent(s: State, es: seq<Event>)
    requires Sequential(s, es) && EnhancedIsCurrent(s) && EnhancementNeverRejects(es)
    ensures EnhancedIsCurrent(Run(s, es).final)
    decreases |es|
  {
    if es != [] {
      assert EnhancementNeverRejects(es[1..]) by {
        forall i | 0 <= i < |es[1..]|
          ensures !(es[1..][i].Finish? && es[1..][i].outcome == EnhanceFailed)
        {
          assert es[1..][i] == es[i + 1];
        }
      }
      assert !(es[0].Finish? && es[0].outcome == EnhanceFailed);
      EnhancedStaysCurrent(Step(s, es[0]).state, es[1..]);
    }
  }

  /**
   * Outside sequential use no rejection is needed for a stale image: a second
   * file read while the first is still processing, followed by the first
   * processing's completion, stores and reports the first image beside the
   * second, and ends processing although the second is still pending.
   */
  lemma OverlappingReloadShowsStale(a: string, b: string)
    requires a != "" && b != ""
    ensures !Sequential(Initial, [Load(a), Load(b), Finish(a, Succeeded)])
    ensures Run(Initial, [Load(a), Load(b), Finish(a, Succeeded)]).callbacks == [Callback(a, a)]
    ensures View(Run(Initial, [Load(a), Load(b), Finish(a, Succeeded)]).final) == Preview(b, false, EnhancedPane(a))
  {
    var es := [Load(a), Load(b), Finish(a, Succeeded)];
    var s1 := Step(Initial, es[0]).state;
    var s2 := Step(s1, es[1]).state;
    var s3 := Step(s2, es[2]).state;
    assert !Enabled(s1, es[1]);
    assert es[1..][1..][1..] == [];
    assert Run(s2, es[1..][1..]) == RunResult(s3, [Callback(a, a)]);
    assert Run(s1, es[1..]) == RunResult(s3, [Callback(a, a)]);
  }
}
