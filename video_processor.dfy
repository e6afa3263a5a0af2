/** The format-specific helpers of `VideoProcessor` (video_processor.py):
    thumbnail filter, extension and quality selection, the `trim_video` and
    `generate_thumbnail` argument lists, and the reading of ffmpeg's
    `-progress` output into percentages. */
module VideoProcessor {
  import opened Wrappers
  import opened Text
  import opened Paths

  const FfmpegPath: string := "ffmpeg"

  // ---------------------------------------------------------------------
  // Thumbnail helpers
  // ---------------------------------------------------------------------

  /** The extension a thumbnail of `imageFormat` must carry: the format is
      looked up lower-cased, `jpeg` shares `.jpg`, anything unknown is `.webp`. */
  function ThumbnailExtension(imageFormat: string): (ext: string)
    ensures ext == ".webp" || ext == ".jpg" || ext == ".png"
    ensures ext == ".jpg" <==> Lower(imageFormat) == "jpg" || Lower(imageFormat) == "jpeg"
    ensures ext == ".png" <==> Lower(imageFormat) == "png"
    ensures ProperExt(ext) && Lower(ext) == ext
  {
    var key := Lower(imageFormat);
    if key == "webp" then ".webp"
    else if key == "jpg" || key == "jpeg" then ".jpg"
    else if key == "png" then ".png"
    else ".webp"
  }

  /** The lookup ignores case: a format and its lower-cased form select the
      same extension. */
  lemma ThumbnailExtensionIgnoresCase(imageFormat: string)
    ensures ThumbnailExtension(imageFormat) == ThumbnailExtension(Lower(imageFormat))
  {
    LowerIdempotent(imageFormat);
  }

  /** `_correct_thumbnail_extension`: keep the path when its suffix already
      matches (ignoring case), else swap the suffix; `None` is the
      `ValueError` that `with_suffix` raises for a path with an empty name. */
  function CorrectThumbnailExtension(outputPath: string, imageFormat: string): (r: Option<string>)
    ensures r == Some(outputPath) <==> Lower(Suffix(outputPath)) == ThumbnailExtension(imageFormat)
    ensures r.None? <==> Name(outputPath) == "" && Lower(Suffix(outputPath)) != ThumbnailExtension(imageFormat)
    ensures r.Some? ==> Dir(r.value) == Dir(outputPath)
    ensures r.Some? ==> Lower(Suffix(r.value)) == ThumbnailExtension(imageFormat)
    ensures r.Some? ==> Stem(r.value) == Stem(outputPath)
    ensures Lower(Suffix(outputPath)) != ThumbnailExtension(imageFormat) ==>
              r == WithSuffix(outputPath, ThumbnailExtension(imageFormat))
  {
    var ext := ThumbnailExtension(imageFormat);
    if Lower(Suffix(outputPath)) != ext then
      var r := WithSuffix(outputPath, ext);
      if r.None? then r
      else
        WithSuffixShape(outputPath, ext);
        r
    else Some(outputPath)
  }

  /** Correcting twice is correcting once. */
  lemma CorrectThumbnailExtensionIdempotent(outputPath: string, imageFormat: string)
    requires CorrectThumbnailExtension(outputPath, imageFormat).Some?
    ensures var once := CorrectThumbnailExtension(outputPath, imageFormat).value;
            CorrectThumbnailExtension(once, imageFormat) == Some(once)
  {
  }

  /** Python's `max(0, min(100, quality))`. */
  function ClampQuality(quality: int): (q: nat)
    ensures q <= 100
    ensures 0 <= quality <= 100 ==> q == quality
    ensures quality < 0 ==> q == 0
    ensures quality > 100 ==> q == 100
  {
    if quality < 0 then 0 else if quality > 100 then 100 else quality
  }

  /** The JPEG `-q:v` value for a 0-100 quality: `int(31 - q * 29 / 100)`
      (the quotient is positive, so `int` rounds it down, which in exact
      integers is `31 - ceil(29 * q / 100)`), then clamped to [2, 31]. */
  function JpegQScale(quality: int): (j: int)
    ensures 2 <= j <= 31
  {
    var q := ClampQuality(quality);
    var raw := 31 - (29 * q + 99) / 100;
    if raw < 2 then 2 else if raw > 31 then 31 else raw
  }

  /** The JPEG scale is Python's `int(31 - q * 29 / 100)` of the clamped
      quality: the floor of the exact value (which is at least 2, so `int`
      rounds it down and the final clamp never bites). */
  lemma JpegQScaleIsTruncation(quality: int)
    ensures JpegQScale(quality) == (31.0 - (ClampQuality(quality) as real) * 29.0 / 100.0).Floor
  {
    var q := ClampQuality(quality);
    var c: int := (29 * q + 99) / 100;
    assert c <= 29;
    assert 100 * c <= 29 * q + 99 < 100 * c + 100;
    var x := 31.0 - (q as real) * 29.0 / 100.0;
    assert (31 - c) as real <= x by {
      assert (29 * q) as real <= (100 * c) as real;
    }
    assert x < (31 - c + 1) as real by {
      assert (100 * c - 100) as real < (29 * q) as real;
    }
  }

  /** The JPEG scale runs from 31 (quality 0) down to 2 (quality 100), never
      leaves [2, 31], and better quality never gives a larger value. */
  lemma JpegQScaleRange(quality: int, better: int)
    requires quality <= better
    ensures 2 <= JpegQScale(quality) <= 31
    ensures JpegQScale(better) <= JpegQScale(quality)
    ensures ClampQuality(quality) == 0 ==> JpegQScale(quality) == 31
    ensures ClampQuality(quality) == 100 ==> JpegQScale(quality) == 2
  {
    var q, q' := ClampQuality(quality), ClampQuality(better);
    assert q <= q';
    assert (29 * q + 99) / 100 <= (29 * q' + 99) / 100;
    assert (29 * q + 99) / 100 <= 29;
  }

  /** `_get_thumbnail_quality_args`. */
  function ThumbnailQualityArgs(imageFormat: string, quality: int): (args: seq<string>)
    ensures Lower(imageFormat) == "png" <==> args == []
    ensures Lower(imageFormat) == "webp" ==> args == ["-quality", NatToString(ClampQuality(quality))]
    ensures Lower(imageFormat) != "png" && Lower(imageFormat) != "webp" ==>
              args == ["-q:v", NatToString(JpegQScale(quality))]
  {
    var key := Lower(imageFormat);
    if key == "png" then []
    else if key == "webp" then ["-quality", NatToString(ClampQuality(quality))]
    else
      JpegQScaleRange(quality, quality);
      ["-q:v", NatToString(JpegQScale(quality))]
  }

  /** `scale=W:H`, the step every thumbnail filter starts with. */
  function Scale(width: string, height: string): string {
    "scale=" + width + ":" + height
  }

  /** `_build_thumbnail_filter`: always a scale to W:H first, and only that
      for a fit other than `cover` and `contain`. */
  function ThumbnailFilter(width: string, height: string, imageFit: string): (f: string)
    ensures Scale(width, height) <= f
    ensures imageFit == "cover" ==>
              Scale(width, height) + ":force_original_aspect_ratio=increase,crop=" + width + ":" + height <= f
    ensures imageFit == "contain" ==>
              Scale(width, height) + ":force_original_aspect_ratio=decrease,pad=" + width + ":" + height <= f
    ensures imageFit != "cover" && imageFit != "contain" ==> f == Scale(width, height)
  {
    if imageFit == "cover" then
      Scale(width, height) + ":force_original_aspect_ratio=increase,crop=" + width + ":" + height
        + ":(iw-" + width + ")/2:(ih-" + height + ")/2"
    else if imageFit == "contain" then
      Scale(width, height) + ":force_original_aspect_ratio=decrease,pad=" + width + ":" + height
        + ":(ow-iw)/2:(oh-ih)/2"
    else Scale(width, height)
  }

  /** Every filter scales to W:H first; `cover` and `contain` add different
      steps after the scale, and every other fit falls back to the bare scale. */
  lemma ThumbnailFilterModes(width: string, height: string, imageFit: string)
    ensures var f := ThumbnailFilter(width, height, imageFit);
            && Scale(width, height) <= f
            && (f == Scale(width, height) <==> imageFit != "cover" && imageFit != "contain")
            && ThumbnailFilter(width, height, "cover") != ThumbnailFilter(width, height, "contain")
  {
    var s := Scale(width, height);
    var cover := ThumbnailFilter(width, height, "cover");
    var contain := ThumbnailFilter(width, height, "contain");
    assert cover[|s| + 29] == 'i';
    assert contain[|s| + 29] == 'd';
  }

  // ---------------------------------------------------------------------
  // generate_thumbnail: size parsing and the argument list
  // ---------------------------------------------------------------------

  /** `size.replace(":", "x")`. */
  function ColonsToX(s: string): (r: string)
    ensures |r| == |s|
    ensures forall i :: 0 <= i < |s| ==> r[i] == (if s[i] == ':' then 'x' else s[i])
  {
    if s == [] then [] else [if s[0] == ':' then 'x' else s[0]] + ColonsToX(s[1..])
  }

  /** `width, height = size.replace(":", "x").split("x")`: exactly one
      separator, else the unpacking raises `ValueError` (here `None`). */
  function ParseSize(size: string): (r: Option<(string, string)>)
    ensures r.Some? ==> && ColonsToX(size) == r.value.0 + "x" + r.value.1
                        && NoChar(r.value.0, 'x') && NoChar(r.value.1, 'x')
    ensures r.None? ==> forall k :: 0 <= k < |size| && ColonsToX(size)[k] == 'x' ==>
              !NoChar(ColonsToX(size)[..k], 'x') || !NoChar(ColonsToX(size)[k + 1..], 'x')
  {
    var t := ColonsToX(size);
    var k := LastIndexOf(t, 'x');
    if k >= 0 && NoChar(t[..k], 'x') then
      assert t == t[..k] + "x" + t[k + 1..];
      Some((t[..k], t[k + 1..]))
    else
      OnlyLastSplits(t);
      None
  }

  /** Only the last `x` of `t` can have no `x` after it. */
  lemma OnlyLastSplits(t: string)
    ensures forall j :: 0 <= j < |t| && t[j] == 'x' && NoChar(t[j + 1..], 'x') ==> j == LastIndexOf(t, 'x')
  {
    var k := LastIndexOf(t, 'x');
    forall j | 0 <= j < |t| && t[j] == 'x' && NoChar(t[j + 1..], 'x') ensures j == k {
      forall i | j < i < |t| ensures t[i] != 'x' {
        assert t[i] == t[j + 1..][i - j - 1];
      }
    }
  }

  /** A size written `WxH` or `W:H`, with neither part holding a separator,
      parses back into its two parts; a size with no separator at all is refused. */
  lemma ParseSizeRoundTrip(width: string, height: string, sep: char)
    requires sep == 'x' || sep == ':'
    requires NoChar(width, 'x') && NoChar(width, ':') && NoChar(height, 'x') && NoChar(height, ':')
    ensures ParseSize(width + [sep] + height) == Some((width, height))
    ensures ParseSize(width) == None
  {
    var s := width + [sep] + height;
    var t := ColonsToX(s);
    assert t == width + "x" + height;
    assert LastIndexOf(t, 'x') == |width| by {
      assert t[|width|] == 'x';
      forall j | |width| < j < |t| ensures t[j] != 'x' {
        assert t[j] == height[j - |width| - 1];
      }
    }
    assert t[..|width|] == width && t[|width| + 1..] == height;
    assert ColonsToX(width) == width;
  }

  datatype CommandError = MalformedSize | EmptyOutputName

  /** `generate_thumbnail`'s argument list. The errors are the exceptions the
      source raises before ffmpeg is started. */
  method ThumbnailCommand(inputPath: string, outputPath: string, timestamp: string, size: string,
                          imageFit: string, imageFormat: string, imageQuality: int)
    returns (r: Result<seq<string>, CommandError>)
    ensures ParseSize(size).None? ==> r == Err(MalformedSize)
    ensures ParseSize(size).Some? && CorrectThumbnailExtension(outputPath, imageFormat).None? ==>
              r == Err(EmptyOutputName)
    ensures r.Ok? <==> ParseSize(size).Some? && CorrectThumbnailExtension(outputPath, imageFormat).Some?
    ensures r.Ok? ==>
              && ParseSize(size).Some?
              && CorrectThumbnailExtension(outputPath, imageFormat).Some?
              && var (w, h) := ParseSize(size).value;
                 r.value == [FfmpegPath, "-i", inputPath, "-ss", timestamp, "-vframes", "1",
                             "-vf", ThumbnailFilter(w, h, imageFit)]
                            + ThumbnailQualityArgs(imageFormat, imageQuality)
                            + ["-progress", "pipe:1", "-y",
                               CorrectThumbnailExtension(outputPath, imageFormat).value]
    ensures r.Ok? ==> |r.value| >= 13 && (|r.value| == 13 <==> Lower(imageFormat) == "png")
    ensures r.Ok? ==> var out := r.value[|r.value| - 1];
              Lower(Suffix(out)) == ThumbnailExtension(imageFormat) && Dir(out) == Dir(outputPath)
  {
    var dims := ParseSize(size);
    if dims.None? {
      return Err(MalformedSize);
    }
    var (width, height) := dims.value;
    var vfFilter := ThumbnailFilter(width, height, imageFit);
    var corrected := CorrectThumbnailExtension(outputPath, imageFormat);
    if corrected.None? {
      return Err(EmptyOutputName);
    }
    var qualityArgs := ThumbnailQualityArgs(imageFormat, imageQuality);
    var cmd := [FfmpegPath, "-i", inputPath, "-ss", timestamp, "-vframes", "1", "-vf", vfFilter];
    cmd := cmd + qualityArgs;
    cmd := cmd + ["-progress", "pipe:1", "-y", corrected.value];
    return Ok(cmd);
  }

  /** The keyword defaults of `generate_thumbnail`. */
  const DefaultTimestamp: string := "00:00:01"
  const DefaultSize: string := "1280x720"
  const DefaultImageFit: string := "cover"
  const DefaultImageFormat: string := "webp"
  const DefaultImageQuality: int := 75

  /** `generate_thumbnail` called with only the keyword arguments a job's
      parameters supply (`None` for an absent one): each absent argument takes
      its default. With every argument absent the frame at one second is
      scaled and cropped to 1280x720 and written as WebP at quality 75. */
  method ThumbnailCommandWithDefaults(inputPath: string, outputPath: string, timestamp: Option<string>,
                                      size: Option<string>, imageFit: Option<string>,
                                      imageFormat: Option<string>, imageQuality: Option<int>)
    returns (r: Result<seq<string>, CommandError>)
    ensures var fmt := imageFormat.GetOr(DefaultImageFormat);
            && (ParseSize(size.GetOr(DefaultSize)).None? ==> r == Err(MalformedSize))
            && (r.Ok? <==> ParseSize(size.GetOr(DefaultSize)).Some? && CorrectThumbnailExtension(outputPath, fmt).Some?)
            && (r.Ok? ==>
                  && ParseSize(size.GetOr(DefaultSize)).Some?
                  && CorrectThumbnailExtension(outputPath, fmt).Some?
                  && var (w, h) := ParseSize(size.GetOr(DefaultSize)).value;
                     r.value == [FfmpegPath, "-i", inputPath, "-ss", timestamp.GetOr(DefaultTimestamp),
                                 "-vframes", "1", "-vf", ThumbnailFilter(w, h, imageFit.GetOr(DefaultImageFit))]
                                + ThumbnailQualityArgs(fmt, imageQuality.GetOr(DefaultImageQuality))
                                + ["-progress", "pipe:1", "-y", CorrectThumbnailExtension(outputPath, fmt).value])
    ensures && timestamp.None? && size.None? && imageFit.None? && imageFormat.None? && imageQuality.None?
            && Name(outputPath) != "" ==>
              && r.Ok?
              && r.value == [FfmpegPath, "-i", inputPath, "-ss", DefaultTimestamp, "-vframes", "1",
                             "-vf", ThumbnailFilter("1280", "720", DefaultImageFit)]
                            + ["-quality", "75"]
                            + ["-progress", "pipe:1", "-y", CorrectThumbnailExtension(outputPath, DefaultImageFormat).value]
  {
    var ts, sz, fit := timestamp.GetOr(DefaultTimestamp), size.GetOr(DefaultSize), imageFit.GetOr(DefaultImageFit);
    var fmt, q := imageFormat.GetOr(DefaultImageFormat), imageQuality.GetOr(DefaultImageQuality);
    r := ThumbnailCommand(inputPath, outputPath, ts, sz, fit, fmt, q);
    if timestamp.None? && size.None? && imageFit.None? && imageFormat.None? && imageQuality.None?
       && Name(outputPath) != "" {
      DefaultArguments(sz, fmt, q);
    }
  }

  /** What the defaults evaluate to: a 1280 by 720 size, WebP quality 75,
      and a `.webp` extension. */
  lemma DefaultArguments(size: string, imageFormat: string, imageQuality: int)
    requires size == DefaultSize && imageFormat == DefaultImageFormat && imageQuality == DefaultImageQuality
    ensures ParseSize(size) == Some(("1280", "720"))
    ensures ThumbnailQualityArgs(imageFormat, imageQuality) == ["-quality", "75"]
    ensures ThumbnailExtension(imageFormat) == ".webp"
  {
    ParseSizeRoundTrip("1280", "720", 'x');
    assert "1280" + ['x'] + "720" == DefaultSize;
    assert Lower("webp") == "webp";
    assert NatToString(75) == "75" by {
      assert NatToString(7) == "7";
    }
  }

  // ---------------------------------------------------------------------
  // trim_video: the argument list
  // ---------------------------------------------------------------------

  /** Python truthiness of an optional string and an optional integer. */
  predicate TruthyText(s: Option<string>) { s.Some? && s.value != "" }
  predicate TruthyInt(i: Option<int>) { i.Some? && i.value != 0 }

  /** `trim_video`'s argument list: `-to` when an end time is given, else
      `-t` when a duration is, never both. */
  method TrimCommand(inputPath: string, outputPath: string, startTime: string,
                     endTime: Option<string>, duration: Option<int>)
    returns (cmd: seq<string>)
    ensures 11 <= |cmd| <= 13
    ensures cmd[..5] == [FfmpegPath, "-i", inputPath, "-ss", startTime]
    ensures cmd[|cmd| - 6..] == ["-c", "copy", "-progress", "pipe:1", "-y", outputPath]
    ensures TruthyText(endTime) ==> cmd[5..|cmd| - 6] == ["-to", endTime.value]
    ensures !TruthyText(endTime) && TruthyInt(duration) ==>
              cmd[5..|cmd| - 6] == ["-t", IntToString(duration.value)]
    ensures !TruthyText(endTime) && !TruthyInt(duration) ==> |cmd| == 11
  {
    cmd := [FfmpegPath, "-i", inputPath, "-ss", startTime];
    if TruthyText(endTime) {
      cmd := cmd + ["-to", endTime.value];
    } else if TruthyInt(duration) {
      cmd := cmd + ["-t", IntToString(duration.value)];
    }
    cmd := cmd + ["-c", "copy", "-progress", "pipe:1", "-y", outputPath];
  }

  // ---------------------------------------------------------------------
  // Progress: `out_time_ms=<digits>` lines of `ffmpeg -progress pipe:1`
  // ---------------------------------------------------------------------

  const Marker: string := "out_time_ms="

  /** Whether the pattern `out_time_ms=(\d+)` matches at index `i` of `line`. */
  predicate MatchAt(line: string, i: nat) {
    i + |Marker| < |line| && line[i..i + |Marker|] == Marker && IsDigit(line[i + |Marker|])
  }

  /** The number the match at `i` captures: the whole run of digits after the marker. */
  function CapturedAt(line: string, i: nat): nat
    requires i + |Marker| <= |line|
  {
    var rest := line[i + |Marker|..];
    ParseNat(rest[..DigitRunLength(rest)])
  }

  /** `re.search` from index `from`: the leftmost match at or after it. */
  function SearchFrom(line: string, from: nat): (r: Option<nat>)
    decreases |line| - from
  {
    if from >= |line| then None
    else if MatchAt(line, from) then Some(CapturedAt(line, from))
    else SearchFrom(line, from + 1)
  }

  lemma {:induction false} SearchFromFinds(line: string, from: nat)
    ensures SearchFrom(line, from).Some? <==> exists i :: from <= i && MatchAt(line, i)
    ensures SearchFrom(line, from).Some? ==>
              exists i :: && from <= i && MatchAt(line, i)
                          && (forall k :: from <= k < i ==> !MatchAt(line, k))
                          && SearchFrom(line, from).value == CapturedAt(line, i)
    decreases |line| - from
  {
    if from < |line| && !MatchAt(line, from) {
      SearchFromFinds(line, from + 1);
      assert forall i :: from <= i && MatchAt(line, i) ==> from + 1 <= i;
    }
  }

  /** The microseconds a progress line reports: a reading exactly when the
      pattern occurs in the line, and then the number written at its
      leftmost occurrence. */
  function ParseProgressLine(line: string): (r: Option<nat>)
    ensures r.Some? <==> exists i :: MatchAt(line, i)
    ensures r.Some? ==>
              exists i: nat :: && MatchAt(line, i) && (forall k: nat :: k < i ==> !MatchAt(line, k))
                          && r.value == CapturedAt(line, i)
  {
    SearchFromFinds(line, 0);
    SearchFrom(line, 0)
  }

  /** ffmpeg's own line `out_time_ms=<n>` (with anything not starting with a
      digit after it, such as the newline) reads back as `n`. */
  lemma ParseProgressLineRoundTrip(n: nat, rest: string)
    requires rest == [] || !IsDigit(rest[0])
    ensures ParseProgressLine(Marker + NatToString(n) + rest) == Some(n)
  {
    var line := Marker + NatToString(n) + rest;
    assert line[..|Marker|] == Marker;
    assert line[|Marker|] == NatToString(n)[0];
    assert MatchAt(line, 0);
    assert line[|Marker|..] == NatToString(n) + rest;
    DigitRunOfDigits(NatToString(n), rest);
    assert (NatToString(n) + rest)[..|NatToString(n)|] == NatToString(n);
    ParseNatToString(n);
  }

  /** The percentage for `ms` microseconds of output:
      `min(100, (ms / 1e6) / total * 100)` when `total > 0`, else 0. */
  function ProgressPercent(ms: nat, totalDuration: real): (p: real)
    ensures 0.0 <= p <= 100.0
    ensures totalDuration <= 0.0 ==> p == 0.0
  {
    if totalDuration > 0.0 then
      var pct := (ms as real / 1000000.0) / totalDuration * 100.0;
      if 100.0 <= pct then 100.0 else pct
    else 0.0
  }

  /** With a known duration, the percentage reaches 100 exactly when the
      output time reaches the duration, and it never decreases as time grows. */
  lemma ProgressPercentShape(ms: nat, later: nat, totalDuration: real)
    requires totalDuration > 0.0 && ms <= later
    ensures ProgressPercent(ms, totalDuration) == 100.0 <==> ms as real >= totalDuration * 1000000.0
    ensures ProgressPercent(ms, totalDuration) <= ProgressPercent(later, totalDuration)
  {
    var t := totalDuration;
    var x := (ms as real / 1000000.0) / t * 100.0;
    var y := (later as real / 1000000.0) / t * 100.0;
    assert x == ms as real / (t * 10000.0);
    assert y == later as real / (t * 10000.0);
    assert x <= y;
    assert 100.0 <= x <==> ms as real >= t * 1000000.0;
  }

  /** The percentages a run of output lines reports, in order: one per line
      that carries the marker. */
  function Reports(lines: seq<string>, totalDuration: real): (r: seq<real>)
    ensures |r| <= |lines|
    ensures forall k :: 0 <= k < |r| ==> 0.0 <= r[k] <= 100.0
  {
    if lines == [] then []
    else
      var before := Reports(lines[..|lines| - 1], totalDuration);
      match ParseProgressLine(lines[|lines| - 1])
      case None => before
      case Some(ms) => before + [ProgressPercent(ms, totalDuration)]
  }

  /** Reading two chunks of output reports what each chunk reports, in order. */
  lemma {:induction false} ReportsAppend(a: seq<string>, b: seq<string>, totalDuration: real)
    ensures Reports(a + b, totalDuration) == Reports(a, totalDuration) + Reports(b, totalDuration)
    decreases |b|
  {
    if b != [] {
      var b' := b[..|b| - 1];
      assert (a + b)[..|a + b| - 1] == a + b';
      assert (a + b)[|a + b| - 1] == b[|b| - 1];
      ReportsAppend(a, b', totalDuration);
      var ra, rb' := Reports(a, totalDuration), Reports(b', totalDuration);
      match ParseProgressLine(b[|b| - 1])
      case None =>
      case Some(ms) =>
        var x := ProgressPercent(ms, totalDuration);
        assert (ra + rb') + [x] == ra + (rb' + [x]);
    } else {
      assert a + b == a;
    }
  }

  /** Lines without the marker report nothing. */
  lemma {:induction false} ReportsWithoutMarker(lines: seq<string>, totalDuration: real)
    requires forall k :: 0 <= k < |lines| ==> ParseProgressLine(lines[k]).None?
    ensures Reports(lines, totalDuration) == []
  {
    if lines != [] {
      ReportsWithoutMarker(lines[..|lines| - 1], totalDuration);
    }
  }

  /** The loop of `_execute_ffmpeg` over ffmpeg's output: each marked line's
      percentage is handed to the progress callback, if there is one. */
  method RelayProgress(lines: seq<string>, totalDuration: real, hasCallback: bool)
    returns (reported: seq<real>)
    ensures reported == if hasCallback then Reports(lines, totalDuration) else []
    ensures forall k :: 0 <= k < |reported| ==> 0.0 <= reported[k] <= 100.0
  {
    reported := [];
    for i := 0 to |lines|
      invariant reported == if hasCallback then Reports(lines[..i], totalDuration) else []
    {
      if hasCallback {
        assert lines[..i + 1][..i] == lines[..i];
        var m := ParseProgressLine(lines[i]);
        if m.Some? {
          reported := reported + [ProgressPercent(m.value, totalDuration)];
        }
      }
    }
    assert lines[..|lines|] == lines;
  }
}
