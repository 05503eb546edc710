/** `WhisperTranscriber` around the engine: how a result is built from what
    Whisper returns, the timestamp formats, the txt, SubRip and WebVTT
    renderings, the JSON metadata, the format dispatch of `save_result`, and
    the memory-based model choice. Times are whole milliseconds. */
module Transcriber {
  import opened Wrappers
  import opened Text
  import opened Paths
  import opened Errors
  import PlatformUtils
  import ConfigManager

  // ---------------------------------------------------------------- timestamps

  /** A time split into hours, minutes, seconds and milliseconds. */
  datatype Clock = Clock(hours: nat, minutes: nat, seconds: nat, millis: nat)

  function Millis(c: Clock): nat {
    ((c.hours * 60 + c.minutes) * 60 + c.seconds) * 1000 + c.millis
  }

  /** `divmod(int(seconds), 3600)`, then `divmod(remainder, 60)`, and the
      milliseconds below the whole second. */
  function ClockOf(ms: nat): (c: Clock)
    ensures c.minutes < 60 && c.seconds < 60 && c.millis < 1000
    ensures Millis(c) == ms
  {
    var whole := ms / 1000;
    var remainder := whole % 3600;
    Clock(whole / 3600, remainder / 60, remainder % 60, ms % 1000)
  }

  /** The split is the only one with minutes and seconds below 60 and
      milliseconds below 1000. */
  lemma ClockUnique(c: Clock)
    requires c.minutes < 60 && c.seconds < 60 && c.millis < 1000
    ensures ClockOf(Millis(c)) == c
  {
    var whole := (c.hours * 60 + c.minutes) * 60 + c.seconds;
    assert Millis(c) / 1000 == whole;
    assert whole % 3600 == c.minutes * 60 + c.seconds;
  }

  /** `HH:MM:SS`, each field zero-padded to at least two digits. */
  function Hms(c: Clock): string {
    PadNat(c.hours, 2) + ":" + PadNat(c.minutes, 2) + ":" + PadNat(c.seconds, 2)
  }

  /** `_format_timestamp`: whole seconds only. */
  function FormatTimestamp(ms: nat): string {
    Hms(ClockOf(ms))
  }

  /** `HH:MM:SS` followed by `sep` and three millisecond digits. */
  function Stamp(ms: nat, sep: char): string {
    Hms(ClockOf(ms)) + [sep] + PadNat(ClockOf(ms).millis, 3)
  }

  /** `_format_timestamp_srt`. */
  function FormatSrt(ms: nat): string {
    Stamp(ms, ',')
  }

  /** `_format_timestamp_vtt`: the cue timing of section 4.1 of the W3C
      WebVTT specification, with the hours always present. */
  function FormatVtt(ms: nat): string {
    Stamp(ms, '.')
  }

  lemma StampFields(h: string, m: string, s: string, sep: char, l: string)
    requires |h| >= 2 && |m| == 2 && |s| == 2 && |l| == 3
    ensures var t := h + ":" + m + ":" + s + [sep] + l;
      |t| == |h| + 10 && t[..|t| - 10] == h && t[|t| - 10] == ':' && t[|t| - 9..|t| - 7] == m
      && t[|t| - 7] == ':' && t[|t| - 6..|t| - 4] == s && t[|t| - 4] == sep && t[|t| - 3..] == l
  {
  }

  lemma HmsFields(h: string, m: string, s: string)
    requires |h| >= 2 && |m| == 2 && |s| == 2
    ensures var t := h + ":" + m + ":" + s;
      |t| == |h| + 6 && t[..|t| - 6] == h && t[|t| - 6] == ':' && t[|t| - 5..|t| - 3] == m
      && t[|t| - 3] == ':' && t[|t| - 2..] == s
  {
  }

  /** The milliseconds that digit fields for hours, minutes, seconds and
      milliseconds stand for. */
  function FieldsValue(h: string, m: string, s: string, l: string): nat
    requires AllDigits(h) && AllDigits(m) && AllDigits(s) && AllDigits(l)
  {
    ((DigitsValue(h) * 60 + DigitsValue(m)) * 60 + DigitsValue(s)) * 1000 + DigitsValue(l)
  }

  /** Reads `H…H:MM:SS<sep>mmm` back into milliseconds. */
  function ParseStamp(t: string, sep: char): Option<nat> {
    if |t| >= 12 && t[|t| - 10] == ':' && t[|t| - 7] == ':' && t[|t| - 4] == sep
       && AllDigits(t[..|t| - 10]) && AllDigits(t[|t| - 9..|t| - 7])
       && AllDigits(t[|t| - 6..|t| - 4]) && AllDigits(t[|t| - 3..])
    then Some(FieldsValue(t[..|t| - 10], t[|t| - 9..|t| - 7], t[|t| - 6..|t| - 4], t[|t| - 3..]))
    else None
  }

  /** Reads `H…H:MM:SS` back into seconds. */
  function ParseHms(t: string): Option<nat> {
    if |t| >= 8 && t[|t| - 6] == ':' && t[|t| - 3] == ':'
       && AllDigits(t[..|t| - 6]) && AllDigits(t[|t| - 5..|t| - 3]) && AllDigits(t[|t| - 2..])
    then Some(FieldsValue(t[..|t| - 6], t[|t| - 5..|t| - 3], t[|t| - 2..], "") / 1000)
    else None
  }

  /** Four digit fields joined as a stamp read back as their value. */
  lemma ParseStampFields(h: string, m: string, s: string, sep: char, l: string)
    requires |h| >= 2 && |m| == 2 && |s| == 2 && |l| == 3 && !IsDigit(sep)
    requires AllDigits(h) && AllDigits(m) && AllDigits(s) && AllDigits(l)
    ensures ParseStamp(h + ":" + m + ":" + s + [sep] + l, sep) == Some(FieldsValue(h, m, s, l))
  {
    StampFields(h, m, s, sep, l);
  }

  /** Three digit fields joined as `H…H:MM:SS` read back as their value. */
  lemma ParseHmsFields(h: string, m: string, s: string)
    requires |h| >= 2 && |m| == 2 && |s| == 2
    requires AllDigits(h) && AllDigits(m) && AllDigits(s)
    ensures ParseHms(h + ":" + m + ":" + s) == Some(FieldsValue(h, m, s, "") / 1000)
  {
    HmsFields(h, m, s);
  }

  /** The padded fields of a clock stand for its milliseconds. */
  lemma PaddedFieldsValue(c: Clock)
    ensures FieldsValue(PadNat(c.hours, 2), PadNat(c.minutes, 2), PadNat(c.seconds, 2), PadNat(c.millis, 3)) == Millis(c)
    ensures FieldsValue(PadNat(c.hours, 2), PadNat(c.minutes, 2), PadNat(c.seconds, 2), "") == Millis(c) - c.millis
  {
    PadNatValue(c.hours, 2); PadNatValue(c.minutes, 2); PadNatValue(c.seconds, 2); PadNatValue(c.millis, 3);
    assert DigitsValue("") == 0;
  }

  /** The SubRip and WebVTT timestamps lose nothing: they read back as the
      time they were made from. */
  lemma StampRoundTrip(ms: nat, sep: char)
    requires !IsDigit(sep)
    ensures ParseStamp(Stamp(ms, sep), sep) == Some(ms)
  {
    var c := ClockOf(ms);
    PadNatExact(c.hours, 2); PadNatExact(c.minutes, 2); PadNatExact(c.seconds, 2); PadNatExact(c.millis, 3);
    ParseStampFields(PadNat(c.hours, 2), PadNat(c.minutes, 2), PadNat(c.seconds, 2), sep, PadNat(c.millis, 3));
    PaddedFieldsValue(c);
  }

  /** The plain timestamp reads back as the whole seconds of the time: it
      truncates, and keeps everything above the second. */
  lemma HmsTruncates(ms: nat)
    ensures ParseHms(FormatTimestamp(ms)) == Some(ms / 1000)
  {
    var c := ClockOf(ms);
    PadNatExact(c.hours, 2); PadNatExact(c.minutes, 2); PadNatExact(c.seconds, 2);
    ParseHmsFields(PadNat(c.hours, 2), PadNat(c.minutes, 2), PadNat(c.seconds, 2));
    PaddedFieldsValue(c);
    assert (ms - c.millis) / 1000 == ms / 1000;
  }

  /** SubRip and WebVTT timestamps differ only in the character before the
      milliseconds. */
  lemma SrtVttDiffer(ms: nat)
    ensures |FormatSrt(ms)| == |FormatVtt(ms)|
    ensures forall i :: 0 <= i < |FormatSrt(ms)| && i != |FormatSrt(ms)| - 4 ==> FormatSrt(ms)[i] == FormatVtt(ms)[i]
    ensures FormatSrt(ms)[|FormatSrt(ms)| - 4] == ',' && FormatVtt(ms)[|FormatVtt(ms)| - 4] == '.'
  {
    var c := ClockOf(ms);
    PadNatExact(c.millis, 3);
  }

  lemma ClockExample()
    ensures ClockOf(3725250) == Clock(1, 2, 5, 250)
  {
    assert 3725250 / 1000 == 3725 && 3725250 % 1000 == 250;
    assert 3725 / 3600 == 1 && 3725 % 3600 == 125;
    assert 125 / 60 == 2 && 125 % 60 == 5;
  }

  lemma PadExamples()
    ensures PadNat(1, 2) == "01" && PadNat(2, 2) == "02" && PadNat(5, 2) == "05" && PadNat(250, 3) == "250"
  {
    assert NatToString(1) == "1" && NatToString(2) == "2" && NatToString(5) == "5";
    assert NatToString(250) == NatToString(25) + "0";
    assert NatToString(25) == NatToString(2) + "5";
  }

  /** 3725.25 seconds: one hour, two minutes, five seconds, 250 milliseconds. */
  lemma TimestampExample()
    ensures FormatSrt(3725250) == "01:02:05,250" && FormatVtt(3725250) == "01:02:05.250"
  {
    ClockExample();
    PadExamples();
  }

  // ---------------------------------------------------------------- results

  /** A recognised word; `probability` is absent when Whisper left it out. */
  datatype Word = Word(probability: Option<real>)

  /** A segment of Whisper's output. */
  datatype Segment = Segment(start: nat, end: nat, text: string, words: seq<Word>)

  /** `TranscriptionResult`. */
  datatype TranscriptionResult = TranscriptionResult(
    text: string, segments: seq<Segment>, language: string, duration: nat,
    processingTime: real, modelUsed: string, deviceUsed: string, confidenceScores: seq<real>)

  /** What `model.transcribe` returned: each key may be missing. */
  datatype RawResult = RawResult(text: Option<string>, segments: Option<seq<Segment>>, language: Option<string>)

  /** The engine call: a result dictionary or an exception. */
  datatype Engine = Returned(raw: RawResult) | EngineRaised(message: string)

  function WordCount(segs: seq<Segment>): nat {
    if |segs| == 0 then 0 else |segs[0].words| + WordCount(segs[1..])
  }

  function WordProbabilities(words: seq<Word>): (r: seq<real>)
    ensures |r| == |words|
    ensures forall i :: 0 <= i < |words| ==> r[i] == words[i].probability.GetOr(0.0)
  {
    if |words| == 0 then [] else [words[0].probability.GetOr(0.0)] + WordProbabilities(words[1..])
  }

  /** The word probabilities of all segments, in order, a missing one
      counted as 0.0. */
  function Confidences(segs: seq<Segment>): (r: seq<real>)
    ensures |r| == WordCount(segs)
  {
    if |segs| == 0 then [] else WordProbabilities(segs[0].words) + Confidences(segs[1..])
  }

  lemma {:induction false} ConfidencesAppend(a: seq<Segment>, b: seq<Segment>)
    ensures Confidences(a + b) == Confidences(a) + Confidences(b)
    ensures WordCount(a + b) == WordCount(a) + WordCount(b)
  {
    if |a| == 0 {
      assert a + b == b;
    } else {
      assert (a + b)[0] == a[0];
      assert (a + b)[1..] == a[1..] + b;
      ConfidencesAppend(a[1..], b);
    }
  }

  /** Word `j` of segment `i` has its probability at the offset counting
      all words of the segments before it. */
  lemma ConfidencesAt(segs: seq<Segment>, i: nat, j: nat)
    requires i < |segs| && j < |segs[i].words|
    ensures WordCount(segs[..i]) + j < |Confidences(segs)|
    ensures Confidences(segs)[WordCount(segs[..i]) + j] == segs[i].words[j].probability.GetOr(0.0)
  {
    assert segs == segs[..i] + segs[i..];
    ConfidencesAppend(segs[..i], segs[i..]);
    assert segs[i..][0] == segs[i];
  }

  /** The empty result `transcribe` returns when the engine raised. */
  function EmptyResult(elapsed: real, model: string, device: string): TranscriptionResult {
    TranscriptionResult("", [], "", 0, elapsed, model, device, [])
  }

  /** `transcribe`: a missing audio file or a model that does not load
      raise; an engine failure gives the empty result; otherwise the text is
      stripped, the language falls back to the requested one, the duration is
      the end of the last segment, and the confidences are the word
      probabilities in order. */
  function Transcribe(fs: FileSystem, audio: Path, language: string, model: string, device: string,
                      modelLoaded: bool, engine: Engine, elapsed: real): (r: Result<TranscriptionResult, Raised>)
    ensures audio !in fs ==> r == Failure(FileNotFoundError("Audio file not found: " + PathString(audio)))
    ensures audio in fs && !modelLoaded ==> r == Failure(RuntimeError("Failed to load Whisper model"))
    ensures r.Success? <==> audio in fs && modelLoaded
    ensures r.Success? ==> Strip(r.value.text) == r.value.text
    ensures r.Success? ==> |r.value.confidenceScores| == WordCount(r.value.segments)
    ensures r.Success? ==> r.value.modelUsed == model && r.value.deviceUsed == device && r.value.processingTime == elapsed
    ensures r.Success? && engine.EngineRaised? ==> r.value == EmptyResult(elapsed, model, device)
    ensures r.Success? && engine.Returned? ==> var segs := engine.raw.segments.GetOr([]);
      r.value.segments == segs && r.value.duration == (if |segs| > 0 then segs[|segs| - 1].end else 0)
      && r.value.language == engine.raw.language.GetOr(language)
    ensures r.Success? && engine.Returned? ==>
      r.value.text == Strip(engine.raw.text.GetOr("")) && r.value.confidenceScores == Confidences(engine.raw.segments.GetOr([]))
  {
    if audio !in fs then Failure(FileNotFoundError("Audio file not found: " + PathString(audio)))
    else if !modelLoaded then Failure(RuntimeError("Failed to load Whisper model"))
    else
      match engine
      case EngineRaised(_) => Success(EmptyResult(elapsed, model, device))
      case Returned(raw) =>
        var segs := raw.segments.GetOr([]);
        StripIdempotent(raw.text.GetOr(""));
        Success(TranscriptionResult(Strip(raw.text.GetOr("")), segs, raw.language.GetOr(language),
          if |segs| > 0 then segs[|segs| - 1].end else 0, elapsed, model, device, Confidences(segs)))
  }

  /** A transcription the engine returned has no text exactly when the
      engine's text was all whitespace, and lists each word's probability
      at its place among all the words. */
  lemma TranscribedResult(fs: FileSystem, audio: Path, language: string, model: string, device: string,
                          engine: Engine, elapsed: real, i: nat, j: nat)
    requires audio in fs && engine.Returned?
    ensures var r := Transcribe(fs, audio, language, model, device, true, engine, elapsed);
      r.Success? && (r.value.text == "" <==> AllSpace(engine.raw.text.GetOr("")))
    ensures var r := Transcribe(fs, audio, language, model, device, true, engine, elapsed);
      i < |r.value.segments| && j < |r.value.segments[i].words| ==>
        WordCount(r.value.segments[..i]) + j < |r.value.confidenceScores| &&
        r.value.confidenceScores[WordCount(r.value.segments[..i]) + j] == r.value.segments[i].words[j].probability.GetOr(0.0)
  {
    var segs := engine.raw.segments.GetOr([]);
    StripEmptyIffAllSpace(engine.raw.text.GetOr(""));
    if i < |segs| && j < |segs[i].words| {
      ConfidencesAt(segs, i, j);
    }
  }

  /** `language` goes to Whisper only when it is neither `auto` nor empty. */
  function LanguageOption(language: string): (r: Option<string>)
    ensures r.Some? <==> language != "auto" && language != ""
    ensures r.Some? ==> r.value == language
  {
    if language != "auto" && language != "" then Some(language) else None
  }

  // ---------------------------------------------------------------- renderings

  function Concat(parts: seq<string>): string {
    if |parts| == 0 then "" else parts[0] + Concat(parts[1..])
  }

  /** The blocks `block(x, first)`, `block(y, first + 1)`, … of a list, written
      one after the other, as the renderers' `for` loops write them. */
  function Blocks<T>(xs: seq<T>, block: (T, nat) -> string, first: nat): string {
    if |xs| == 0 then "" else block(xs[0], first) + Blocks(xs[1..], block, first + 1)
  }

  /** Block `i` (from 0) of a list, numbered `first + i`. */
  function Numbered<T>(xs: seq<T>, block: (T, nat) -> string, first: nat): (r: seq<string>)
    ensures |r| == |xs|
    ensures forall i :: 0 <= i < |xs| ==> r[i] == block(xs[i], first + i)
  {
    seq(|xs|, i requires 0 <= i < |xs| => block(xs[i], first + i))
  }

  /** The rendering of a list is the concatenation of its numbered blocks. */
  lemma {:induction false} BlocksAre<T>(xs: seq<T>, block: (T, nat) -> string, first: nat)
    ensures Blocks(xs, block, first) == Concat(Numbered(xs, block, first))
  {
    if |xs| > 0 {
      BlocksAre(xs[1..], block, first + 1);
      assert Numbered(xs, block, first)[1..] == Numbered(xs[1..], block, first + 1);
    }
  }

  /** Numbering runs on across a split of the list. */
  lemma {:induction false} BlocksAppend<T>(a: seq<T>, b: seq<T>, block: (T, nat) -> string, first: nat)
    ensures Blocks(a + b, block, first) == Blocks(a, block, first) + Blocks(b, block, first + |a|)
  {
    if |a| == 0 {
      assert a + b == b;
    } else {
      assert (a + b)[0] == a[0];
      assert (a + b)[1..] == a[1..] + b;
      BlocksAppend(a[1..], b, block, first + 1);
    }
  }

  /** One timestamped line of the txt rendering; the number is not shown. */
  function TxtLine(seg: Segment, number: nat): string {
    "[" + FormatTimestamp(seg.start) + " --> " + FormatTimestamp(seg.end) + "] " + Strip(seg.text) + "\n"
  }

  /** `_save_txt`: one timestamped line per segment when asked for and there
      are segments, otherwise the text with a newline added unless it is
      empty or already ends in one. */
  function RenderTxt(r: TranscriptionResult, withTimestamps: bool): (out: string)
    ensures !(withTimestamps && |r.segments| > 0) ==> out == r.text || out == r.text + "\n"
    ensures !(withTimestamps && |r.segments| > 0) ==> (out == "" <==> r.text == "")
    ensures !(withTimestamps && |r.segments| > 0) && r.text != "" ==> EndsWith(out, "\n")
  {
    if withTimestamps && |r.segments| > 0 then Blocks(r.segments, TxtLine, 1)
    else if r.text != "" && !EndsWith(r.text, "\n") then r.text + "\n"
    else r.text
  }

  /** With timestamps, the txt rendering is exactly one line per segment, in
      order. */
  lemma TxtIsLines(r: TranscriptionResult)
    requires |r.segments| > 0
    ensures RenderTxt(r, true) == Concat(Numbered(r.segments, TxtLine, 1))
  {
    BlocksAre(r.segments, TxtLine, 1);
  }

  /** A cue: the two timestamps and the stripped text, then a blank line. */
  function Cue(seg: Segment, sep: char): string {
    Stamp(seg.start, sep) + " --> " + Stamp(seg.end, sep) + "\n" + Strip(seg.text) + "\n\n"
  }

  /** A SubRip block: its number on a line of its own, then the cue. */
  function SrtBlock(seg: Segment, number: nat): string {
    NatToString(number) + "\n" + Cue(seg, ',')
  }

  /** `_save_srt`: numbered blocks from 1, nothing at all without segments. */
  function RenderSrt(segs: seq<Segment>): (out: string)
    ensures |segs| == 0 ==> out == ""
  {
    Blocks(segs, SrtBlock, 1)
  }

  /** Block `i` (from 0) of the SubRip rendering carries the number `i + 1`. */
  lemma SrtNumbered(segs: seq<Segment>)
    ensures RenderSrt(segs) == Concat(Numbered(segs, SrtBlock, 1))
  {
    BlocksAre(segs, SrtBlock, 1);
  }

  /** Rendering a longer list keeps the earlier blocks and numbers the new
      ones on from where the earlier ones stopped. */
  lemma SrtAppend(a: seq<Segment>, b: seq<Segment>)
    ensures RenderSrt(a + b) == RenderSrt(a) + Blocks(b, SrtBlock, |a| + 1)
  {
    BlocksAppend(a, b, SrtBlock, 1);
  }

  const VttHeader := "WEBVTT\n\n"

  /** A WebVTT cue has no number. */
  function VttCue(seg: Segment, number: nat): string {
    Cue(seg, '.')
  }

  /** `_save_vtt`: the signature line and a blank line, then one un-numbered
      cue per segment. */
  function RenderVtt(segs: seq<Segment>): (out: string)
    ensures StartsWith(out, VttHeader)
    ensures |segs| == 0 ==> out == VttHeader
  {
    VttHeader + Blocks(segs, VttCue, 1)
  }

  /** The WebVTT body is exactly the cues, in order, after the header. */
  lemma VttCuesAre(segs: seq<Segment>)
    ensures RenderVtt(segs) == VttHeader + Concat(Numbered(segs, VttCue, 1))
  {
    BlocksAre(segs, VttCue, 1);
  }

  // ---------------------------------------------------------------- JSON metadata

  /** The `metadata` object of the JSON rendering. */
  datatype Metadata = Metadata(averageConfidence: real, totalSegments: nat, totalWords: nat)

  function Sum(xs: seq<real>): real {
    if |xs| == 0 then 0.0 else xs[0] + Sum(xs[1..])
  }

  lemma {:induction false} SumBounds(xs: seq<real>)
    requires forall i :: 0 <= i < |xs| ==> 0.0 <= xs[i] <= 1.0
    ensures 0.0 <= Sum(xs) <= |xs| as real
  {
    if |xs| > 0 {
      SumBounds(xs[1..]);
    }
  }

  /** `_save_json`'s metadata: the mean of the confidence scores (0.0 when
      there are none), the number of segments and of words. */
  function JsonMetadata(r: TranscriptionResult): (m: Metadata)
    ensures m.totalSegments == |r.segments| && m.totalWords == WordCount(r.segments)
    ensures |r.confidenceScores| == 0 ==> m.averageConfidence == 0.0
  {
    var n := |r.confidenceScores|;
    Metadata(if n > 0 then Sum(r.confidenceScores) / n as real else 0.0, |r.segments|, WordCount(r.segments))
  }

  /** Scores between 0 and 1 average to a value between 0 and 1. */
  lemma AverageInUnitRange(r: TranscriptionResult)
    requires forall i :: 0 <= i < |r.confidenceScores| ==> 0.0 <= r.confidenceScores[i] <= 1.0
    ensures 0.0 <= JsonMetadata(r).averageConfidence <= 1.0
  {
    var n := |r.confidenceScores|;
    if n > 0 {
      SumBounds(r.confidenceScores);
      DivideBelowOne(Sum(r.confidenceScores), n as real);
    }
  }

  lemma DivideBelowOne(x: real, n: real)
    requires n > 0.0 && 0.0 <= x <= n
    ensures 0.0 <= x / n <= 1.0
  {
    assert x / n * n == x;
  }

  /** For a result built from Whisper's output, the word total of the
      metadata equals the number of confidence scores. */
  lemma MetadataCountsScores(fs: FileSystem, audio: Path, language: string, model: string, device: string,
                             modelLoaded: bool, engine: Engine, elapsed: real)
    requires Transcribe(fs, audio, language, model, device, modelLoaded, engine, elapsed).Success?
    ensures var r := Transcribe(fs, audio, language, model, device, modelLoaded, engine, elapsed).value;
      JsonMetadata(r).totalWords == |r.confidenceScores|
  {
  }

  // ---------------------------------------------------------------- saving

  /** What `save_result` writes: a text file, or the JSON document given by
      the result and its metadata. */
  datatype Saved = TextFile(content: string) | JsonFile(result: TranscriptionResult, metadata: Metadata)

  const SaveFailurePrefix := "Failed to save transcription result: "

  /** `save_result`: dispatch on the format; an unknown format and a failed
      write (`ioError`) both surface as `RuntimeError`, the inner exception's
      text after a fixed prefix. */
  function SaveResult(r: TranscriptionResult, format: string, withTimestamps: bool, ioError: Option<string>): (s: Result<Saved, Raised>)
    ensures format !in ["txt", "srt", "vtt", "json"] ==>
      s == Failure(RuntimeError(SaveFailurePrefix + "Unsupported format: " + format))
    ensures format in ["txt", "srt", "vtt", "json"] && ioError.Some? ==>
      s == Failure(RuntimeError(SaveFailurePrefix + ioError.value))
    ensures s.Success? <==> format in ["txt", "srt", "vtt", "json"] && ioError.None?
    ensures s.Success? ==> (s.value.JsonFile? <==> format == "json")
    ensures s.Success? && format == "vtt" ==> StartsWith(s.value.content, VttHeader)
    ensures s.Success? && format == "json" ==> s.value.metadata.totalSegments == |r.segments|
  {
    if format !in ["txt", "srt", "vtt", "json"] then Failure(RuntimeError(SaveFailurePrefix + "Unsupported format: " + format))
    else if ioError.Some? then Failure(RuntimeError(SaveFailurePrefix + ioError.value))
    else if format == "txt" then Success(TextFile(RenderTxt(r, withTimestamps)))
    else if format == "srt" then Success(TextFile(RenderSrt(r.segments)))
    else if format == "vtt" then Success(TextFile(RenderVtt(r.segments)))
    else Success(JsonFile(r, JsonMetadata(r)))
  }

  // ---------------------------------------------------------------- model choice

  /** `MODEL_CONFIGS[...]['memory_gb']`. */
  function ModelMemory(model: string): nat {
    if model == "tiny" then 1 else if model == "base" then 2 else if model == "small" then 3
    else if model == "medium" then 5 else if model == "large" || model == "large-v2" then 8
    else if model == "large-v3" then 10 else 0
  }

  /** The order `get_recommended_model` tries the models in. */
  const LargestFirst: seq<string> := ["large-v3", "large", "medium", "small", "base", "tiny"]

  function FirstFitting(models: seq<string>, available: real): (r: Option<string>)
    ensures r.Some? ==> r.value in models && ModelMemory(r.value) as real <= available
    ensures r.None? ==> forall j :: 0 <= j < |models| ==> available < ModelMemory(models[j]) as real
  {
    if |models| == 0 then None
    else if available >= ModelMemory(models[0]) as real then Some(models[0])
    else FirstFitting(models[1..], available)
  }

  /** The model returned is the first in the list that fits. */
  lemma {:induction false} FirstFittingIsFirst(models: seq<string>, available: real, k: nat)
    requires k < |models| && ModelMemory(models[k]) as real <= available
    requires forall j :: 0 <= j < k ==> available < ModelMemory(models[j]) as real
    ensures FirstFitting(models, available) == Some(models[k])
  {
    if k > 0 {
      FirstFittingIsFirst(models[1..], available, k - 1);
    }
  }

  /** `get_recommended_model`: `medium` when the memory is unknown,
      otherwise the first model of `LargestFirst` that fits, `tiny` as the
      last resort. */
  function GetRecommendedModel(available: Option<real>): (r: string)
    ensures r in LargestFirst
    ensures available.None? ==> r == "medium"
    ensures available.Some? && r != "tiny" ==> ModelMemory(r) as real <= available.value
  {
    match available
    case None => "medium"
    case Some(m) => FirstFitting(LargestFirst, m).GetOr("tiny")
  }

  /** The memory table agrees with `estimate_model_memory_usage` for every
      listed model. */
  lemma MemoryTablesAgree(model: string)
    requires model in PlatformUtils.ModelNames
    ensures ModelMemory(model) as real == PlatformUtils.EstimateModelMemory(model)
  {
  }

  /** `get_recommended_model` as thresholds: 10, 8, 5, 3, 2 and 1 GiB. */
  lemma RecommendationThresholds(m: real)
    ensures GetRecommendedModel(Some(m)) ==
      if m >= 10.0 then "large-v3" else if m >= 8.0 then "large" else if m >= 5.0 then "medium"
      else if m >= 3.0 then "small" else if m >= 2.0 then "base" else "tiny"
  {
    var l := LargestFirst;
    if m >= 10.0 { FirstFittingIsFirst(l, m, 0); }
    else if m >= 8.0 { FirstFittingIsFirst(l, m, 1); }
    else if m >= 5.0 { FirstFittingIsFirst(l, m, 2); }
    else if m >= 3.0 { FirstFittingIsFirst(l, m, 3); }
    else if m >= 2.0 { FirstFittingIsFirst(l, m, 4); }
    else if m >= 1.0 { FirstFittingIsFirst(l, m, 5); }
  }

  /** The two recommendation policies disagree exactly between 10 and 12
      GiB: the transcriber picks `large-v3` where the configuration picks
      `large`. */
  lemma RecommendationsCompared(m: real)
    ensures 10.0 <= m < 12.0 ==> GetRecommendedModel(Some(m)) == "large-v3" && ConfigManager.RecommendedModel(Some(m)) == "large"
    ensures !(10.0 <= m < 12.0) ==> GetRecommendedModel(Some(m)) == ConfigManager.RecommendedModel(Some(m))
    ensures GetRecommendedModel(None) == ConfigManager.RecommendedModel(None)
  {
    RecommendationThresholds(m);
  }
}
