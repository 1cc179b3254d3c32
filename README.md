# Video thumbnail track: a verified model

This project models the core of a small video-upload service. After an upload, an external
engine samples one frame every ten seconds into a `thumbnails` directory. The route then writes a
WebVTT thumbnail track, `thumbnails.vtt`. In that file, cue *i* spans seconds `[10 i, 10 (i + 1))`
and points at `http://localhost:3000/<video>/thumbnails/<file>`. A video player reads the track to
show scrubbing previews.

The model covers the two pieces of logic in `app/api/generateVtt/route.ts`: `generateVttFile` and
the decisions that `extractThumbnails` takes around the engine.

Files and modules:

- `text.dfy`, module `Text`: the JavaScript string built-ins the route relies on.
  - `Number.prototype.toString` on non-negative integers is `DecimalString`.
  - `padStart(2, '0')` is `PadStart` and `Pad2`.
  - `endsWith` is `EndsWith`.
  - `SplitLines` splits text on `'\n'`, as a reader of the produced file would.
- `timestamps.dfy`, module `Timestamps`: the route's timestamp `"00:00:" + pad2(s) + ".000"`.
  - It also holds the timestamp syntax of section 4.1 of the W3C "WebVTT: The Web Video Text
    Tracks Format": optional hours, then `mm:ss.ttt` with minutes and seconds in 00..59.
  - `RolloverTimestamp` is a separately named, corrected formatter. It is **not** what the route
    does.
- `vtt.dfy`, module `VttBuilder`: the content of the track and the method `GenerateVttFile`.
  - `GenerateVttFile` keeps the source's loop and its `vttContent` accumulator. It is proved to
    produce exactly `VttContent(thumbs, videoName)`.
  - The layout and read-back lemmas are stated for any timestamp formatter `stamp: nat -> string`.
    They then hold alike for the route's formatter (`VttContent`) and the corrected one
    (`RolloverVttContent`).
  - `ParseVtt` reads a file of this layout back into its cues. It is a reader for this layout,
    not a full WebVTT parser.
- `extract.dfy`, module `ThumbnailExtraction`: `extractThumbnails` as a pure function.
  - Its inputs are whether the source exists, whether the output directory exists, and the
    engine's outcome. The outcome is an error event with a message, or an end event with the
    directory listing.
  - Its result holds the effects it performs, in order, and the resolved names or the rejection.

The route does not do the following, and neither does the model:

- The listing is filtered to names ending in `.jpg` and kept in listing order. It is not sorted by
  numeric suffix.
- URLs splice the names in verbatim. There is no percent-encoding.
- An empty thumbnail list returns without writing and without an error. There is no
  `EmptyThumbnailSet` error.
- Timestamps do not roll over: index 7 gives `00:00:70.000`.
- The file is written directly. There is no temporary file and no rename.
- Stale files in the output directory are not cleared.

## Model

| member | source | states |
|---|---|---|
| Text.DecimalString | app/api/generateVtt/route.ts:120-121 | `n.toString()`: a non-empty digit string whose decimal value is `n`, with no leading zero unless `n` is 0 |
| Text.DecimalStringLength | app/api/generateVtt/route.ts:120-121 | the decimal has one digit exactly for values below 10 and two exactly for 10..99 |
| Text.PadStart | app/api/generateVtt/route.ts:120-121 | `padStart` never shortens its input, ends with the input unchanged, and fills only on the left with the filler up to the target length |
| Text.Pad2 | app/api/generateVtt/route.ts:120-121 | `pad2(n)` is at least two digits and denotes `n`; it is exactly two digits iff `n < 100`; from `n >= 10` on it is the plain decimal, never truncated |
| Text.Pad2Digits | app/api/generateVtt/route.ts:120-121 | below 100, `pad2(n)` is the tens digit followed by the units digit |
| Timestamps.TimestampRoundTrip | app/api/generateVtt/route.ts:120-121 | every route timestamp has the shape `00:00:<digits>.000`, and its seconds field reads back as the seconds it was made from |
| Timestamps.TimestampConformsIff | app/api/generateVtt/route.ts:120-121 | a route timestamp is a WebVTT timestamp if and only if its seconds are below 60, and it then denotes that many seconds |
| Timestamps.WideSecondsNoTimestamp | app/api/generateVtt/route.ts:120-121 | a seconds field of three or more digits never gives a WebVTT timestamp |
| Timestamps.AsWrittenIndexSeven | app/api/generateVtt/route.ts:120-121 | index 7 starts at `00:00:70.000`, which is not a WebVTT timestamp (no rollover) |
| Timestamps.RolloverTimestampConforms | app/api/generateVtt/route.ts:120-121 | corrected variant: every rollover timestamp is a WebVTT timestamp denoting exactly its seconds |
| Timestamps.RolloverAgreesBelowMinute | app/api/generateVtt/route.ts:120-121 | below 60 seconds the corrected variant writes the route's own text |
| Timestamps.RolloverIndexSeven | app/api/generateVtt/route.ts:120-121 | corrected variant: index 7 starts at `00:01:10.000` |
| VttBuilder.GenerateVttFile | app/api/generateVtt/route.ts:110-132 | nothing is written exactly when the list is empty; otherwise `thumbnails.vtt` in `outputDir` receives exactly `VttContent(thumbnails, videoName)` |
| VttBuilder.PushBlock | app/api/generateVtt/route.ts:119-126 | each pass of the loop extends the accumulated blocks of the first `i` thumbnails to those of the first `i + 1` |
| VttBuilder.JoinAfterHead | app/api/generateVtt/route.ts:129 | `join('\n')` after a head element puts one newline in front of every further element |
| VttBuilder.ContentOfNone | app/api/generateVtt/route.ts:116-129 | without cues the text is the header `WEBVTT\n` alone |
| VttBuilder.ContentSnoc | app/api/generateVtt/route.ts:116-129 | each further thumbnail, in input order, appends `"\n" + start + " --> " + end + "\n" + url + "\n"` for its slot and nothing else |
| VttBuilder.ParseBlocks | app/api/generateVtt/route.ts:125-129 | the newline-separated blocks of cues that fit on their lines read back as exactly those cues |
| VttBuilder.ContentRoundTrip | app/api/generateVtt/route.ts:116-129 | for any formatter whose stamps hold no space or newline, and names without newlines, the text reads back as exactly the intended cues, in order |
| VttBuilder.FormattersStayOnOneLine | app/api/generateVtt/route.ts:120-121 | the route's and the rollover timestamps contain only digits, `:` and `.`, so never a space or a newline |
| VttBuilder.VttRoundTrip | app/api/generateVtt/route.ts:116-129 | the route's own file reads back as one cue per thumbnail with that thumbnail's slot and URL |
| VttBuilder.OneCuePerThumbnail | app/api/generateVtt/route.ts:119-126 | there are exactly as many cues as thumbnails, and the URL of cue `i` names `thumbs[i]` |
| VttBuilder.UrlRoundTrip | app/api/generateVtt/route.ts:124-125 | the URL is the fixed prefix, the video name, `/thumbnails/` and the file name, all verbatim and in that order: the file name is recovered unchanged |
| VttBuilder.TimestampReadsBack | app/api/generateVtt/route.ts:120-121 | `ReadTimestamp` recovers the seconds of every route timestamp |
| VttBuilder.RolloverReadsBack | app/api/generateVtt/route.ts:120-121 | `ReadRollover` recovers the seconds of every rollover timestamp |
| VttBuilder.CueSlot | app/api/generateVtt/route.ts:117-125 | for any formatter with an exact reader, every cue `i`, the last one included, reads as `[10 i, 10 (i + 1))` and carries `thumbs[i]`'s URL |
| VttBuilder.CueOrder | app/api/generateVtt/route.ts:117-121 | for any formatter with an exact reader, each cue's end is textually the next cue's start, and later cues start strictly later |
| VttBuilder.RouteCueSlot | app/api/generateVtt/route.ts:117-125 | every cue `i` of the route's own track reads as `[10 i, 10 (i + 1))` and carries `thumbs[i]`'s URL |
| VttBuilder.RouteCueOrder | app/api/generateVtt/route.ts:117-121 | the route's cues are contiguous, textually, and start strictly later one after another |
| VttBuilder.ValidIffShort | app/api/generateVtt/route.ts:117-121 | a formatter valid exactly below one minute gives a valid track exactly when there are at most five ten-second cues |
| VttBuilder.AsWrittenValidIff | app/api/generateVtt/route.ts:117-121 | the route's track has only valid WebVTT timestamps if and only if it has at most five thumbnails |
| VttBuilder.RolloverAlwaysValid | app/api/generateVtt/route.ts:120-121 | corrected variant: every track is valid, and cue `i` starts at `10 i` seconds |
| VttBuilder.RolloverAgreesWhileShort | app/api/generateVtt/route.ts:120-121 | up to five thumbnails, the corrected track is the very text the route writes |
| VttBuilder.NoRolloverAtIndexSeven | app/api/generateVtt/route.ts:120-121 | the route's eighth cue starts at `00:00:70.000`, the corrected one at `00:01:10.000` |
| ThumbnailExtraction.RejectionMessage | app/api/generateVtt/route.ts:70-95 | only a resolved result carries no message; a missing source is rejected with "Video file does not exist", an engine error with the engine's own message, an empty `.jpg` filter with "No thumbnails were generated" |
| ThumbnailExtraction.NoFramesMessageIff | app/api/generateVtt/route.ts:91-95 | after the end event, the rejection "No thumbnails were generated" comes exactly when the `.jpg` filter of the listing is empty |
| ThumbnailExtraction.JpgFiles | app/api/generateVtt/route.ts:91 | the filter keeps exactly the listing entries that end in `.jpg` and is never longer than the listing |
| ThumbnailExtraction.JpgFilesSubsequence | app/api/generateVtt/route.ts:91 | the filtered names are a subsequence of the listing, so listing order is kept |
| ThumbnailExtraction.JpgFilesAppend | app/api/generateVtt/route.ts:91 | filtering a listing in two parts filters each part and keeps the parts in order |
| ThumbnailExtraction.JpgFilesKeepsAllJpg | app/api/generateVtt/route.ts:91-98 | a listing of `.jpg` names comes back unchanged: nothing is sorted or reordered |
| ThumbnailExtraction.JpgFilesEmptyIff | app/api/generateVtt/route.ts:91-95 | the filter is empty if and only if no listing entry ends in `.jpg` |
| ThumbnailExtraction.ExtractThumbnails | app/api/generateVtt/route.ts:68-107 | a missing source goes straight to `SourceNotFound` with no step; otherwise the trace is exactly one directory creation, only when the directory is missing, followed by one engine run; an engine error becomes `ExtractionFailed` with its message; an end event resolves with the `.jpg` entries in listing order iff there is one, and gives `NoFrames` iff there is none |
| ThumbnailExtraction.ExtractedFromListing | app/api/generateVtt/route.ts:90-98 | every resolved name ends in `.jpg` and comes from the listing, in listing order |
| ThumbnailExtraction.MissingSourceIgnoresEngine | app/api/generateVtt/route.ts:70-73 | with a missing source the engine's outcome makes no difference, and the rejection says "Video file does not exist" |

## Left out

- The `POST` handler (app/api/generateVtt/route.ts:16-65) is not modelled. It is multipart parsing, buffer writes, the saved-size check, directory creation and HTTP responses, all input/output plumbing.
- The frame-extraction engine is an outcome value. Its binary path, its `fps=1/10` and `-q:v 2` options, the `thumb_%03d.jpg` file numbering and its `start` callback are external-process details.
- `path.parse`, `path.join` and `path.basename` are library calls. The video name, the directories and the file names are given strings.
- The route computes an encoded `thumbPath` with `encodeURIComponent` and `path.basename` at line 124, and never uses it. The model leaves it out, and nothing in the URL is encoded.
- The `thumbnails` array declared at line 79 of `extractThumbnails` is never used, and the model leaves it out.
- Console logging is not modelled.
- `fs.existsSync` is modelled as two booleans, and `mkdirSync` as the `CreateOutputDir` step. `readdirSync` is the listing carried by the end event. The listing may include stale files from earlier runs, which the route does not clear.
- A `mkdirSync` that throws (line 76) would reject the promise with that error, and a `readdirSync` that throws inside the end handler (line 91) would leave the promise unsettled. Neither file-system failure is modelled: the directory is always created and the listing is always read.
- `fs.writeFileSync` is the `FileWritten` effect. Write failures, encodings other than text, and partial writes are not modelled.
- The promise and its callbacks are one pure function. Timing, and events arriving after the promise settles, are not modelled.
- `app/page.tsx`, the upload form, is not part of this model.
- `components/BitmovinPlayer.tsx`, the player embedding, is not part of this model.
- VttBuilder.ParseVtt: it reads only the layout this route writes (a header line, then per cue a blank line, a timing line and a URL line). It does not cover the whole WebVTT grammar.
- VttBuilder.ContentRoundTrip, VttBuilder.VttRoundTrip and VttBuilder.OneCuePerThumbnail: each requires that the video name and thumbnail names hold no newline. With a newline in a name, the file does not read back cue by cue. The route does not check for this.

## Findings

| source | as written | input that shows it | evidently intended | confidence | as-written member | corrected member |
|---|---|---|---|---|---|---|
| app/api/generateVtt/route.ts:120-121 | the seconds field is the full decimal of `i * 10`, with minutes and hours fixed at `00`, so any cue reaching 60 seconds is not a WebVTT timestamp (section 4.1 of the W3C WebVTT format allows seconds 00..59) | six or more thumbnails: cue 5 ends at `00:00:60.000`, and cue 7 starts at `00:00:70.000` | roll seconds over into minutes and hours: cue 7 starts at `00:01:10.000`, and every track is valid | medium; not executed | VttBuilder.AsWrittenValidIff | VttBuilder.RolloverAlwaysValid |

The layout, round-trip and cue-time lemmas of `VttBuilder` are stated for any formatter, so they hold for the corrected track `RolloverVttContent` as well as for the route's. `RolloverAgreesWhileShort` shows that the correction changes nothing for tracks of up to five cues.
