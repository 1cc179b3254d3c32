/** The WebVTT thumbnail track that `generateVttFile` writes: one cue per thumbnail,
    ten seconds each, pointing at the thumbnail's URL on the local server.

    The layout is stated for any timestamp formatter `stamp`; the route's own formatter is
    `Timestamps.Timestamp`, and `Timestamps.RolloverTimestamp` is the corrected variant. */
module VttBuilder {
  import opened Text
  import opened Timestamps

  const Header: string := "WEBVTT\n"
  const IntervalSeconds: nat := 10
  const UrlPrefix: string := "http://localhost:3000/"
  const VttFileName: string := "thumbnails.vtt"

  /** The image URL of a cue: the names are spliced in verbatim, with no percent-encoding. */
  function ThumbnailUrl(videoName: string, thumb: string): string
  {
    UrlPrefix + videoName + "/thumbnails/" + thumb
  }

  /** One cue as it stands in the file: its two timestamps and its URL line. */
  datatype Cue = Cue(startTime: string, endTime: string, url: string)

  /** The text pushed for one cue: "start --> end", a newline, the URL and a newline. */
  function Block(c: Cue): string
  {
    c.startTime + " --> " + c.endTime + "\n" + c.url + "\n"
  }

  /** The cue for the thumbnail at index `i`: it covers seconds [10 i, 10 (i + 1)). */
  function CueAt(stamp: nat -> string, i: nat, thumb: string, videoName: string): Cue
  {
    Cue(stamp(i * IntervalSeconds), stamp((i + 1) * IntervalSeconds), ThumbnailUrl(videoName, thumb))
  }

  /** One cue per thumbnail, in input order. */
  function Cues(stamp: nat -> string, thumbs: seq<string>, videoName: string): seq<Cue>
  {
    seq(|thumbs|, i requires 0 <= i < |thumbs| => CueAt(stamp, i, thumbs[i], videoName))
  }

  function Blocks(cues: seq<Cue>): seq<string>
  {
    seq(|cues|, i requires 0 <= i < |cues| => Block(cues[i]))
  }

  /** `parts.join(sep)`. */
  function Join(parts: seq<string>, sep: string): string
    decreases |parts|
  {
    if |parts| == 0 then ""
    else if |parts| == 1 then parts[0]
    else parts[0] + sep + Join(parts[1..], sep)
  }

  /** The file text: the header element and one block per thumbnail, joined with newlines. */
  function Content(stamp: nat -> string, thumbs: seq<string>, videoName: string): string
  {
    Join([Header] + Blocks(Cues(stamp, thumbs, videoName)), "\n")
  }

  /** What the route writes: the content with its own timestamp formatter. */
  function VttContent(thumbs: seq<string>, videoName: string): string
  {
    Content(Timestamp, thumbs, videoName)
  }

  /** Corrected variant, not what the route writes: the same track with rollover timestamps. */
  function RolloverVttContent(thumbs: seq<string>, videoName: string): string
  {
    Content(RolloverTimestamp, thumbs, videoName)
  }

  /** The file-system effect of one call. */
  datatype WriteEffect = NothingWritten | FileWritten(dir: string, name: string, content: string)

  /** A further thumbnail adds its cue at the end. */
  lemma CuesSnoc(stamp: nat -> string, thumbs: seq<string>, thumb: string, videoName: string)
    ensures Cues(stamp, thumbs + [thumb], videoName)
      == Cues(stamp, thumbs, videoName) + [CueAt(stamp, |thumbs|, thumb, videoName)]
  {
  }

  lemma BlocksSnoc(cues: seq<Cue>, c: Cue)
    ensures Blocks(cues + [c]) == Blocks(cues) + [Block(c)]
  {
  }

  /** Pushing the block of thumbnail `i` extends the blocks of the first `i` thumbnails to the
      blocks of the first `i + 1`. */
  lemma PushBlock(stamp: nat -> string, thumbs: seq<string>, i: nat, videoName: string)
    requires i < |thumbs|
    ensures [Header] + Blocks(Cues(stamp, thumbs[..i], videoName)) + [Block(CueAt(stamp, i, thumbs[i], videoName))]
      == [Header] + Blocks(Cues(stamp, thumbs[..i + 1], videoName))
  {
    assert thumbs[..i + 1] == thumbs[..i] + [thumbs[i]];
    CuesSnoc(stamp, thumbs[..i], thumbs[i], videoName);
    BlocksSnoc(Cues(stamp, thumbs[..i], videoName), CueAt(stamp, i, thumbs[i], videoName));
  }

  /** `generateVttFile`: an empty list returns without writing; otherwise a block per thumbnail
      is pushed in input order and their join is written to `thumbnails.vtt` in `outputDir`. */
  method GenerateVttFile(thumbnails: seq<string>, outputDir: string, videoName: string)
    returns (effect: WriteEffect)
    ensures effect == NothingWritten <==> |thumbnails| == 0
    ensures |thumbnails| > 0 ==>
      effect == FileWritten(outputDir, VttFileName, VttContent(thumbnails, videoName))
  {
    if |thumbnails| == 0 {
      return NothingWritten;
    }
    var vttContent := [Header];
    var timeInterval := IntervalSeconds;
    for i := 0 to |thumbnails|
      invariant vttContent == [Header] + Blocks(Cues(Timestamp, thumbnails[..i], videoName))
    {
      var startTime := Timestamp(i * timeInterval);
      var endTime := Timestamp((i + 1) * timeInterval);
      var block := startTime + " --> " + endTime + "\n" + ThumbnailUrl(videoName, thumbnails[i]) + "\n";
      assert block == Block(CueAt(Timestamp, i, thumbnails[i], videoName));
      PushBlock(Timestamp, thumbnails, i, videoName);
      vttContent := vttContent + [block];
    }
    assert thumbnails[..|thumbnails|] == thumbnails;
    effect := FileWritten(outputDir, VttFileName, Join(vttContent, "\n"));
  }

  // ---------------------------------------------------------------------------
  // Layout of the file text

  /** The parts, each preceded by `sep`. */
  function Prefixed(parts: seq<string>, sep: string): string
  {
    if parts == [] then "" else sep + parts[0] + Prefixed(parts[1..], sep)
  }

  /** Joining a head element with more parts puts the separator in front of every further part. */
  lemma {:induction false} JoinAfterHead(head: string, parts: seq<string>, sep: string)
    ensures Join([head] + parts, sep) == head + Prefixed(parts, sep)
    decreases |parts|
  {
    if parts != [] {
      assert ([head] + parts)[1..] == [parts[0]] + parts[1..];
      JoinAfterHead(parts[0], parts[1..], sep);
    }
  }

  lemma {:induction false} PrefixedSnoc(parts: seq<string>, last: string, sep: string)
    ensures Prefixed(parts + [last], sep) == Prefixed(parts, sep) + sep + last
    decreases |parts|
  {
    if parts == [] {
      assert Prefixed([last], sep) == sep + last + Prefixed([], sep);
    } else {
      assert (parts + [last])[1..] == parts[1..] + [last];
      PrefixedSnoc(parts[1..], last, sep);
    }
  }

  /** Without thumbnails the text would be the header alone. */
  lemma ContentOfNone(stamp: nat -> string, videoName: string)
    ensures Content(stamp, [], videoName) == "WEBVTT\n"
  {
    assert [Header] + Blocks(Cues(stamp, [], videoName)) == [Header];
  }

  lemma SnocText(head: string, body: string, a: string, b: string, prefix: string, videoName: string, thumb: string)
    ensures head + (body + "\n" + Block(Cue(a, b, prefix + videoName + "/thumbnails/" + thumb)))
      == head + body + "\n" + a + " --> " + b + "\n" + prefix + videoName + "/thumbnails/" + thumb + "\n"
  {
  }

  /** Each further thumbnail, in input order, appends a blank line, the time range of its
      ten-second slot and its URL, each line ending in a newline. */
  lemma ContentSnoc(stamp: nat -> string, thumbs: seq<string>, thumb: string, videoName: string)
    ensures Content(stamp, thumbs + [thumb], videoName)
      == Content(stamp, thumbs, videoName) + "\n" + stamp(|thumbs| * 10) + " --> " + stamp((|thumbs| + 1) * 10)
         + "\n" + UrlPrefix + videoName + "/thumbnails/" + thumb + "\n"
  {
    var c := CueAt(stamp, |thumbs|, thumb, videoName);
    var bs := Blocks(Cues(stamp, thumbs, videoName));
    CuesSnoc(stamp, thumbs, thumb, videoName);
    BlocksSnoc(Cues(stamp, thumbs, videoName), c);
    JoinAfterHead(Header, bs + [Block(c)], "\n");
    JoinAfterHead(Header, bs, "\n");
    PrefixedSnoc(bs, Block(c), "\n");
    assert Content(stamp, thumbs + [thumb], videoName) == Header + (Prefixed(bs, "\n") + "\n" + Block(c));
    assert Content(stamp, thumbs, videoName) == Header + Prefixed(bs, "\n");
    SnocText(Header, Prefixed(bs, "\n"), stamp(|thumbs| * 10), stamp((|thumbs| + 1) * 10), UrlPrefix, videoName, thumb);
  }

  // ---------------------------------------------------------------------------
  // Reading the file back

  /** Reads the lines after the header: each cue is a blank line, a timing line
      "start --> end" and a URL line; the text ends with an empty last line. */
  function ParseCueLines(lines: seq<string>): Option<seq<Cue>>
    decreases |lines|
  {
    if lines == [""] then Some([])
    else if |lines| >= 3 && lines[0] == "" then
      match SplitFirst(lines[1], " --> ")
      case None => None
      case Some((startTime, endTime)) =>
        match ParseCueLines(lines[3..])
        case None => None
        case Some(rest) => Some([Cue(startTime, endTime, lines[2])] + rest)
    else None
  }

  /** Reads a file of the layout the route writes. */
  function ParseVtt(text: string): Option<seq<Cue>>
  {
    var lines := SplitLines(text);
    if lines[0] == "WEBVTT" then ParseCueLines(lines[1..]) else None
  }

  /** A cue that fits on its lines: no newline anywhere, no space in the start time. */
  predicate OnItsLines(cue: Cue)
  {
    ' ' !in cue.startTime && '\n' !in cue.startTime && '\n' !in cue.endTime && '\n' !in cue.url
  }

  lemma BlockRegrouped(timing: string, url: string, rest: string)
    ensures "\n" + (timing + "\n" + url + "\n") + rest == "" + "\n" + (timing + "\n" + (url + "\n" + rest))
  {
  }

  lemma TimingOnOneLine(startTime: string, endTime: string)
    requires '\n' !in startTime && '\n' !in endTime
    ensures '\n' !in startTime + " --> " + endTime
  {
    assert '\n' !in " --> ";
  }

  /** A blank line and the block of a cue that fits on its lines split into exactly three lines. */
  lemma BlockLines(c: Cue, rest: string)
    requires OnItsLines(c)
    ensures SplitLines("\n" + Block(c) + rest)
      == ["", c.startTime + " --> " + c.endTime, c.url] + SplitLines(rest)
  {
    var timing := c.startTime + " --> " + c.endTime;
    TimingOnOneLine(c.startTime, c.endTime);
    BlockRegrouped(timing, c.url, rest);
    SplitLinesCons("", timing + "\n" + (c.url + "\n" + rest));
    SplitLinesCons(timing, c.url + "\n" + rest);
    SplitLinesCons(c.url, rest);
  }

  /** A blank line, a timing line and a URL line in front of readable lines read as one more cue. */
  lemma ParseOneCue(c: Cue, more: seq<string>, cues: seq<Cue>)
    requires OnItsLines(c)
    requires ParseCueLines(more) == Some(cues)
    ensures ParseCueLines(["", c.startTime + " --> " + c.endTime, c.url] + more) == Some([c] + cues)
  {
    var lines := ["", c.startTime + " --> " + c.endTime, c.url] + more;
    SplitFirstExact(c.startTime, " --> ", c.endTime);
    assert lines[3..] == more;
  }

  /** The blank-line-separated blocks of cues that fit on their lines read back as those cues. */
  lemma {:induction false} ParseBlocks(cues: seq<Cue>)
    requires forall i :: 0 <= i < |cues| ==> OnItsLines(cues[i])
    ensures ParseCueLines(SplitLines(Prefixed(Blocks(cues), "\n"))) == Some(cues)
    decreases |cues|
  {
    var bs := Blocks(cues);
    if cues == [] {
      assert Prefixed(bs, "\n") == "";
      SplitLinesSingle("");
    } else {
      var c := cues[0];
      assert OnItsLines(c);
      assert bs[1..] == Blocks(cues[1..]);
      var rest := Prefixed(bs[1..], "\n");
      BlockLines(c, rest);
      ParseBlocks(cues[1..]);
      ParseOneCue(c, SplitLines(rest), cues[1..]);
      assert [c] + cues[1..] == cues;
    }
  }

  /** A formatter whose timestamps hold no space and no newline. */
  ghost predicate StaysOnOneLine(stamp: nat -> string)
  {
    forall n: nat :: ' ' !in stamp(n) && '\n' !in stamp(n)
  }

  lemma UrlOnOneLine(videoName: string, thumb: string)
    requires '\n' !in videoName && '\n' !in thumb
    ensures '\n' !in ThumbnailUrl(videoName, thumb)
  {
    assert '\n' !in UrlPrefix;
    assert '\n' !in "/thumbnails/";
  }

  /** Round trip: reading the written text back yields exactly one cue per thumbnail, in input
      order, cue `i` carrying the timestamps of slot `i` and the URL of `thumbs[i]`; this holds
      whenever no name contains a newline. */
  lemma ContentRoundTrip(stamp: nat -> string, thumbs: seq<string>, videoName: string)
    requires StaysOnOneLine(stamp)
    requires '\n' !in videoName && forall i :: 0 <= i < |thumbs| ==> '\n' !in thumbs[i]
    ensures ParseVtt(Content(stamp, thumbs, videoName)) == Some(Cues(stamp, thumbs, videoName))
  {
    var cues := Cues(stamp, thumbs, videoName);
    forall i | 0 <= i < |cues|
      ensures OnItsLines(cues[i])
    {
      assert cues[i] == Cue(stamp(i * 10), stamp((i + 1) * 10), ThumbnailUrl(videoName, thumbs[i]));
      UrlOnOneLine(videoName, thumbs[i]);
    }
    ParseBlocks(cues);
    var body := Prefixed(Blocks(cues), "\n");
    JoinAfterHead(Header, Blocks(cues), "\n");
    HeaderLine(body);
    SplitLinesCons("WEBVTT", body);
  }

  lemma HeaderLine(body: string)
    ensures Header + body == "WEBVTT" + "\n" + body
  {
  }

  predicate IsStampChar(ch: char) { IsDigit(ch) || ch == ':' || ch == '.' }

  lemma AssembleChars(h: string, m: string, s: string, f: string)
    requires AllDigits(h) && AllDigits(m) && AllDigits(s) && AllDigits(f)
    ensures forall k :: 0 <= k < |Assemble(h, m, s, f)| ==> IsStampChar(Assemble(h, m, s, f)[k])
  {
  }

  lemma NoBreakIn(t: string)
    requires forall k :: 0 <= k < |t| ==> IsStampChar(t[k])
    ensures ' ' !in t && '\n' !in t
  {
  }

  /** The route's timestamps and the rollover timestamps stay on one line. */
  lemma FormattersStayOnOneLine()
    ensures StaysOnOneLine(Timestamp)
    ensures StaysOnOneLine(RolloverTimestamp)
  {
    forall n: nat
      ensures ' ' !in Timestamp(n) && '\n' !in Timestamp(n)
      ensures ' ' !in RolloverTimestamp(n) && '\n' !in RolloverTimestamp(n)
    {
      ZeroStrings();
      AssembleChars("00", "00", Pad2(n), "000");
      NoBreakIn(Timestamp(n));
      var minutes := n / 60;
      AssembleChars(Pad2(minutes / 60), Pad2(minutes % 60), Pad2(n % 60), "000");
      NoBreakIn(RolloverTimestamp(n));
    }
  }

  /** The route's file reads back as its cues for any names without newlines. */
  lemma VttRoundTrip(thumbs: seq<string>, videoName: string)
    requires '\n' !in videoName && forall i :: 0 <= i < |thumbs| ==> '\n' !in thumbs[i]
    ensures ParseVtt(VttContent(thumbs, videoName)) == Some(Cues(Timestamp, thumbs, videoName))
  {
    FormattersStayOnOneLine();
    ContentRoundTrip(Timestamp, thumbs, videoName);
  }

  /** Exactly one cue per thumbnail, in input order, and the URL of cue `i` names `thumbs[i]`. */
  lemma OneCuePerThumbnail(thumbs: seq<string>, videoName: string)
    requires '\n' !in videoName && forall i :: 0 <= i < |thumbs| ==> '\n' !in thumbs[i]
    ensures ParseVtt(VttContent(thumbs, videoName)).Some?
    ensures var cues := ParseVtt(VttContent(thumbs, videoName)).value;
      && |cues| == |thumbs|
      && forall i :: 0 <= i < |cues| ==> ThumbOfUrl(videoName, cues[i].url) == Some(thumbs[i])
  {
    VttRoundTrip(thumbs, videoName);
    var cues := Cues(Timestamp, thumbs, videoName);
    forall i | 0 <= i < |cues|
      ensures ThumbOfUrl(videoName, cues[i].url) == Some(thumbs[i])
    {
      UrlRoundTrip(videoName, thumbs[i]);
    }
  }

  // ---------------------------------------------------------------------------
  // Cue times

  /** A reader that recovers the seconds from every timestamp of a formatter. */
  ghost predicate ReadsBack(stamp: nat -> string, read: string -> Option<nat>)
  {
    forall n: nat :: read(stamp(n)) == Some(n)
  }

  /** Reads a rollover timestamp back as whole seconds. */
  function ReadRollover(t: string): Option<nat>
  {
    if IsWebVttTimestamp(t) then Some(WebVttMillis(t) / 1_000) else None
  }

  /** `ReadTimestamp` reads back every timestamp of the route. */
  lemma TimestampReadsBack()
    ensures ReadsBack(Timestamp, ReadTimestamp)
  {
    forall n: nat
      ensures ReadTimestamp(Timestamp(n)) == Some(n)
    {
      TimestampRoundTrip(n);
    }
  }

  lemma RolloverReadOne(n: nat)
    ensures ReadRollover(RolloverTimestamp(n)) == Some(n)
  {
    RolloverTimestampConforms(n);
    assert n * 1_000 / 1_000 == n;
  }

  /** `ReadRollover` reads back every rollover timestamp. */
  lemma RolloverReadsBack()
    ensures ReadsBack(RolloverTimestamp, ReadRollover)
  {
    forall n: nat
      ensures ReadRollover(RolloverTimestamp(n)) == Some(n)
    {
      RolloverReadOne(n);
    }
  }

  /** Cue `i` reads as [10 i, 10 (i + 1)) and shows `thumbs[i]`. */
  lemma CueSlot(stamp: nat -> string, read: string -> Option<nat>, thumbs: seq<string>, videoName: string, i: nat)
    requires ReadsBack(stamp, read)
    requires i < |thumbs|
    ensures var cues := Cues(stamp, thumbs, videoName);
      && read(cues[i].startTime) == Some(i * 10)
      && read(cues[i].endTime) == Some((i + 1) * 10)
      && cues[i].url == ThumbnailUrl(videoName, thumbs[i])
  {
    var cues := Cues(stamp, thumbs, videoName);
    assert cues[i].startTime == stamp(i * 10);
    assert cues[i].endTime == stamp((i + 1) * 10);
  }

  /** Each cue's end is textually the next cue's start, and later cues start strictly later. */
  lemma CueOrder(stamp: nat -> string, read: string -> Option<nat>, thumbs: seq<string>, videoName: string, i: nat, j: nat)
    requires ReadsBack(stamp, read)
    requires i < j < |thumbs|
    ensures var cues := Cues(stamp, thumbs, videoName);
      && cues[i].endTime == cues[i + 1].startTime
      && read(cues[i].startTime).Some? && read(cues[j].startTime).Some?
      && read(cues[i].startTime).value < read(cues[j].startTime).value
  {
    var cues := Cues(stamp, thumbs, videoName);
    assert cues[i].startTime == stamp(i * 10);
    assert cues[j].startTime == stamp(j * 10);
  }

  /** The route's cue `i` reads as [10 i, 10 (i + 1)) and shows `thumbs[i]`. */
  lemma RouteCueSlot(thumbs: seq<string>, videoName: string, i: nat)
    requires i < |thumbs|
    ensures var cues := Cues(Timestamp, thumbs, videoName);
      && ReadTimestamp(cues[i].startTime) == Some(i * 10)
      && ReadTimestamp(cues[i].endTime) == Some((i + 1) * 10)
      && cues[i].url == ThumbnailUrl(videoName, thumbs[i])
  {
    TimestampReadsBack();
    CueSlot(Timestamp, ReadTimestamp, thumbs, videoName, i);
  }

  /** The route's cues are contiguous and start strictly later one after another. */
  lemma RouteCueOrder(thumbs: seq<string>, videoName: string, i: nat, j: nat)
    requires i < j < |thumbs|
    ensures var cues := Cues(Timestamp, thumbs, videoName);
      && cues[i].endTime == cues[i + 1].startTime
      && ReadTimestamp(cues[i].startTime).Some? && ReadTimestamp(cues[j].startTime).Some?
      && ReadTimestamp(cues[i].startTime).value < ReadTimestamp(cues[j].startTime).value
  {
    TimestampReadsBack();
    CueOrder(Timestamp, ReadTimestamp, thumbs, videoName, i, j);
  }

  /** Every timestamp of every cue is a WebVTT timestamp. */
  predicate AllTimestampsValid(cues: seq<Cue>)
  {
    forall i :: 0 <= i < |cues| ==> IsWebVttTimestamp(cues[i].startTime) && IsWebVttTimestamp(cues[i].endTime)
  }

  /** A formatter whose timestamps are valid WebVTT exactly below `limit` seconds. */
  ghost predicate ValidExactlyBelow(stamp: nat -> string, limit: nat)
  {
    forall n: nat :: IsWebVttTimestamp(stamp(n)) <==> n < limit
  }

  lemma TimestampValidBelowMinute()
    ensures ValidExactlyBelow(Timestamp, 60)
  {
    forall n: nat
      ensures IsWebVttTimestamp(Timestamp(n)) <==> n < 60
    {
      TimestampConformsIff(n);
    }
  }

  /** A track whose formatter is valid exactly below one minute is valid exactly when it has at
      most five ten-second cues. */
  lemma ValidIffShort(stamp: nat -> string, thumbs: seq<string>, videoName: string)
    requires ValidExactlyBelow(stamp, 60)
    ensures AllTimestampsValid(Cues(stamp, thumbs, videoName)) <==> |thumbs| <= 5
  {
    var cues := Cues(stamp, thumbs, videoName);
    if |thumbs| <= 5 {
      forall i | 0 <= i < |cues|
        ensures IsWebVttTimestamp(cues[i].startTime) && IsWebVttTimestamp(cues[i].endTime)
      {
        assert cues[i].startTime == stamp(i * 10);
        assert cues[i].endTime == stamp((i + 1) * 10);
      }
    } else {
      assert cues[5].endTime == stamp(60);
    }
  }

  /** The route's track is valid WebVTT timing exactly when it has at most five thumbnails. */
  lemma AsWrittenValidIff(thumbs: seq<string>, videoName: string)
    ensures AllTimestampsValid(Cues(Timestamp, thumbs, videoName)) <==> |thumbs| <= 5
  {
    TimestampValidBelowMinute();
    ValidIffShort(Timestamp, thumbs, videoName);
  }

  /** With the rollover formatter every track is valid WebVTT timing, and cue `i` denotes
      [10 i, 10 (i + 1)) seconds. */
  lemma RolloverAlwaysValid(thumbs: seq<string>, videoName: string)
    ensures AllTimestampsValid(Cues(RolloverTimestamp, thumbs, videoName))
    ensures forall i :: 0 <= i < |thumbs| ==>
      WebVttMillis(Cues(RolloverTimestamp, thumbs, videoName)[i].startTime) == i * 10_000
  {
    var cues := Cues(RolloverTimestamp, thumbs, videoName);
    forall i | 0 <= i < |cues|
      ensures IsWebVttTimestamp(cues[i].startTime) && IsWebVttTimestamp(cues[i].endTime)
      ensures WebVttMillis(cues[i].startTime) == i * 10_000
    {
      RolloverTimestampConforms(i * 10);
      RolloverTimestampConforms((i + 1) * 10);
    }
  }

  /** Up to five thumbnails the rollover variant writes the very text the route writes. */
  lemma RolloverAgreesWhileShort(thumbs: seq<string>, videoName: string)
    requires |thumbs| <= 5
    ensures RolloverVttContent(thumbs, videoName) == VttContent(thumbs, videoName)
  {
    forall i | 0 <= i < |thumbs|
      ensures CueAt(RolloverTimestamp, i, thumbs[i], videoName) == CueAt(Timestamp, i, thumbs[i], videoName)
    {
      RolloverAgreesBelowMinute(i * 10);
      RolloverAgreesBelowMinute((i + 1) * 10);
    }
    assert Cues(RolloverTimestamp, thumbs, videoName) == Cues(Timestamp, thumbs, videoName);
  }

  /** No rollover: the eighth cue of the route's track starts at "00:00:70.000",
      where the rollover variant writes "00:01:10.000". */
  lemma NoRolloverAtIndexSeven(thumbs: seq<string>, videoName: string)
    requires |thumbs| >= 8
    ensures Cues(Timestamp, thumbs, videoName)[7].startTime == "00:00:70.000"
    ensures Cues(RolloverTimestamp, thumbs, videoName)[7].startTime == "00:01:10.000"
  {
    AsWrittenIndexSeven();
    RolloverIndexSeven();
  }

  // ---------------------------------------------------------------------------
  // URLs

  /** Recovers the thumbnail name from a URL built for `videoName`. */
  function ThumbOfUrl(videoName: string, url: string): Option<string>
  {
    var n := |UrlPrefix| + |videoName|;
    if n + 12 <= |url| && url[..|UrlPrefix|] == UrlPrefix && url[|UrlPrefix|..n] == videoName
       && url[n..n + 12] == "/thumbnails/"
    then Some(url[n + 12..])
    else None
  }

  /** The URL holds the video name and the thumbnail name verbatim, in that order. */
  lemma UrlRoundTrip(videoName: string, thumb: string)
    ensures ThumbOfUrl(videoName, ThumbnailUrl(videoName, thumb)) == Some(thumb)
  {
    var url := ThumbnailUrl(videoName, thumb);
    var n := |UrlPrefix| + |videoName|;
    assert url[..|UrlPrefix|] == UrlPrefix;
    assert url[|UrlPrefix|..n] == videoName;
    assert url[n..n + 12] == "/thumbnails/";
    assert url[n + 12..] == thumb;
  }
}
