/** The decisions `extractThumbnails` takes around the frame-extraction engine: the source must
    exist before the engine runs, and on the engine's "end" event the output directory's listing
    is filtered to the `.jpg` names, which must not be empty. The engine itself is an outcome
    value: either an error event with its message or an end event with the directory listing. */
module ThumbnailExtraction {
  import opened Text

  const JpgSuffix: string := ".jpg"
  const MissingSourceMessage: string := "Video file does not exist"
  const NoFramesMessage: string := "No thumbnails were generated"

  /** What the engine reports: an error event, or the end event after which the output
      directory lists `listing`, in the order the file system returns it. */
  datatype EngineOutcome = EngineError(message: string) | EngineEnd(listing: seq<string>)

  /** The effects the function performs, in order. */
  datatype Step = CreateOutputDir | RunEngine

  datatype ExtractResult =
    | Ok(thumbnails: seq<string>)
    | SourceNotFound
    | ExtractionFailed(message: string)
    | NoFrames

  datatype Extraction = Extraction(steps: seq<Step>, result: ExtractResult)

  /** The message a rejected promise carries; a resolved one carries none. */
  function RejectionMessage(r: ExtractResult): (m: Option<string>)
    ensures m.None? <==> r.Ok?
    ensures r.SourceNotFound? ==> m == Some("Video file does not exist")
    ensures r.ExtractionFailed? ==> m == Some(r.message)
    ensures r.NoFrames? ==> m == Some("No thumbnails were generated")
  {
    match r
    case Ok(_) => None
    case SourceNotFound => Some(MissingSourceMessage)
    case ExtractionFailed(message) => Some(message)
    case NoFrames => Some(NoFramesMessage)
  }

  predicate IsJpg(name: string)
  {
    EndsWith(name, JpgSuffix)
  }

  /** `listing.filter(file => file.endsWith('.jpg'))`. */
  function JpgFiles(listing: seq<string>): (r: seq<string>)
    ensures |r| <= |listing|
    ensures forall x :: x in r <==> x in listing && IsJpg(x)
  {
    if listing == [] then []
    else (if IsJpg(listing[0]) then [listing[0]] else []) + JpgFiles(listing[1..])
  }

  /** `sub` is `s` with some elements dropped and the rest kept in their order. */
  predicate IsSubsequence(sub: seq<string>, s: seq<string>)
    decreases |s|
  {
    if sub == [] then true
    else if s == [] then false
    else (sub[0] == s[0] && IsSubsequence(sub[1..], s[1..])) || IsSubsequence(sub, s[1..])
  }

  /** The filter keeps the listing's order: its result is a subsequence of the listing. */
  lemma {:induction false} JpgFilesSubsequence(listing: seq<string>)
    ensures IsSubsequence(JpgFiles(listing), listing)
  {
    if listing != [] {
      JpgFilesSubsequence(listing[1..]);
      if IsJpg(listing[0]) {
        assert JpgFiles(listing)[1..] == JpgFiles(listing[1..]);
      } else {
        assert JpgFiles(listing) == JpgFiles(listing[1..]);
      }
    }
  }

  /** Filtering a listing made of two parts filters each part and keeps them in that order. */
  lemma {:induction false} JpgFilesAppend(a: seq<string>, b: seq<string>)
    ensures JpgFiles(a + b) == JpgFiles(a) + JpgFiles(b)
  {
    if a == [] {
      assert a + b == b;
    } else {
      assert (a + b)[0] == a[0];
      assert (a + b)[1..] == a[1..] + b;
      JpgFilesAppend(a[1..], b);
    }
  }

  /** Nothing is sorted or reordered: a listing of `.jpg` names only comes back unchanged. */
  lemma {:induction false} JpgFilesKeepsAllJpg(listing: seq<string>)
    requires forall i :: 0 <= i < |listing| ==> IsJpg(listing[i])
    ensures JpgFiles(listing) == listing
  {
    if listing != [] {
      JpgFilesKeepsAllJpg(listing[1..]);
    }
  }

  /** The filter comes out empty exactly when no entry of the listing ends in `.jpg`. */
  lemma JpgFilesEmptyIff(listing: seq<string>)
    ensures JpgFiles(listing) == [] <==> forall x :: x in listing ==> !IsJpg(x)
  {
    if JpgFiles(listing) != [] {
      assert JpgFiles(listing)[0] in JpgFiles(listing);
    }
  }

  /** `extractThumbnails`: a missing source is rejected before anything else happens; otherwise
      the output directory is created if it is missing and the engine runs. An error event
      rejects with the engine's message; on the end event the `.jpg` names of the listing are
      returned in listing order, or "No thumbnails were generated" when there are none. */
  function ExtractThumbnails(sourceExists: bool, outputDirExists: bool, engine: EngineOutcome): (x: Extraction)
    ensures !sourceExists ==> x == Extraction([], SourceNotFound)
    ensures RunEngine in x.steps <==> sourceExists
    ensures CreateOutputDir in x.steps <==> sourceExists && !outputDirExists
    ensures sourceExists ==> |x.steps| == (if outputDirExists then 1 else 2) && x.steps[|x.steps| - 1] == RunEngine
    ensures x.result.Ok? <==> sourceExists && engine.EngineEnd? && exists f :: f in engine.listing && IsJpg(f)
    ensures x.result.Ok? ==> x.result.thumbnails == JpgFiles(engine.listing) && |x.result.thumbnails| > 0
    ensures x.result == NoFrames <==>
      sourceExists && engine.EngineEnd? && forall f :: f in engine.listing ==> !IsJpg(f)
    ensures x.result.ExtractionFailed? <==> sourceExists && engine.EngineError?
    ensures x.result.ExtractionFailed? ==> x.result.message == engine.message
  {
    if !sourceExists then Extraction([], SourceNotFound)
    else
      var steps := (if outputDirExists then [] else [CreateOutputDir]) + [RunEngine];
      match engine
      case EngineError(message) => Extraction(steps, ExtractionFailed(message))
      case EngineEnd(listing) =>
        var generatedFiles := JpgFiles(listing);
        JpgFilesEmptyIff(listing);
        if |generatedFiles| == 0 then Extraction(steps, NoFrames)
        else Extraction(steps, Ok(generatedFiles))
  }

  /** Every returned name ends in `.jpg`, comes from the listing, and the names keep the
      listing's order. */
  lemma ExtractedFromListing(sourceExists: bool, outputDirExists: bool, listing: seq<string>)
    requires ExtractThumbnails(sourceExists, outputDirExists, EngineEnd(listing)).result.Ok?
    ensures var ts := ExtractThumbnails(sourceExists, outputDirExists, EngineEnd(listing)).result.thumbnails;
      && (forall i :: 0 <= i < |ts| ==> IsJpg(ts[i]) && ts[i] in listing)
      && IsSubsequence(ts, listing)
  {
    JpgFilesSubsequence(listing);
  }

  /** An end event is rejected with "No thumbnails were generated" exactly when no listing entry
      ends in `.jpg`. */
  lemma NoFramesMessageIff(outputDirExists: bool, listing: seq<string>)
    ensures (RejectionMessage(ExtractThumbnails(true, outputDirExists, EngineEnd(listing)).result)
               == Some("No thumbnails were generated"))
      <==> JpgFiles(listing) == []
  {
    JpgFilesEmptyIff(listing);
  }

  /** Whatever the engine does, a missing source yields the same rejection and no step. */
  lemma MissingSourceIgnoresEngine(outputDirExists: bool, e1: EngineOutcome, e2: EngineOutcome)
    ensures ExtractThumbnails(false, outputDirExists, e1) == ExtractThumbnails(false, outputDirExists, e2)
    ensures RejectionMessage(ExtractThumbnails(false, outputDirExists, e1).result) == Some("Video file does not exist")
  {
  }
}
