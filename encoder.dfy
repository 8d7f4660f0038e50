/**
 * `encode_webm.py`: the image-sequence pattern and output path handed to
 * ffmpeg, the ffmpeg argument vector, and the reaction to ffmpeg's exit
 * status. The pattern is checked against the names the frame writer uses,
 * reading it as an image-sequence pattern is read: `%%` is a literal `%`,
 * and the one `%<digits>d` directive is the frame number zero-padded to
 * that many digits.
 */
module Encoder {
  import opened Outcomes
  import opened Decimal
  import opened Paths
  import FrameNaming

  /** The settings `encode_webm.py` reads. */
  datatype EncoderConfig = EncoderConfig(
    framesDir: string,
    finalDir: string,
    basename: string,
    fps: int,
    totalFrames: int,
    ffmpegBin: string)

  /** `zero_pad_width`, written out a second time in this script. */
  function ZeroPadWidth(total: int): (pad: nat)
    ensures pad >= 4 && pad >= |IntToString(total)|
  {
    var n := |IntToString(total)|;
    if n > 4 then n else 4
  }

  /** Both scripts derive the same pad width from the same frame count. */
  lemma PadWidthsAgree(total: int)
    ensures ZeroPadWidth(total) == FrameNaming.ZeroPadWidth(total)
  {
  }

  /** `build_pattern_and_out()`: the input pattern and the `.webm` path in `FINAL_DIR`. */
  function BuildPatternAndOut(ec: EncoderConfig): (r: (string, string))
    ensures |r.0| == |ec.basename| + 8 + |IntToString(ZeroPadWidth(ec.totalFrames))|
    ensures var webm := ec.basename + ".webm";
      |r.1| >= |webm| && r.1[|r.1| - |webm|..] == webm
    ensures !IsAbsolute(ec.basename + ".webm") ==>
      |r.1| >= |ec.finalDir| && r.1[..|ec.finalDir|] == ec.finalDir
  {
    var pad := ZeroPadWidth(ec.totalFrames);
    var pattern := ec.basename + "_%0" + IntToString(pad) + "d.png";
    var outpath := JoinPath(ec.finalDir, ec.basename + ".webm");
    (pattern, outpath)
  }

  // -----------------------------------------------------------------------
  // Reading the pattern

  /** The number of decimal digits at the start of `s`. */
  function LeadingDigits(s: string): (k: nat)
    ensures k <= |s| && AllDigits(s[..k])
    ensures k < |s| ==> !IsDigit(s[k])
  {
    if |s| > 0 && IsDigit(s[0]) then 1 + LeadingDigits(s[1..]) else 0
  }

  /**
   * The file name that pattern `p` gives frame `n`: `%%`, and `%` with
   * digits before the second `%`, reads as `%`;
   * `%<digits>d` as `n` zero-padded to the width the digits give; the
   * pattern is invalid (None) without exactly one such directive or with
   * any other `%`. `seen` says a number directive has already been read.
   */
  function ExpandPattern(p: string, n: nat, seen: bool): Option<string>
    decreases |p|
  {
    if p == [] then (if seen then Some([]) else None)
    else if p[0] != '%' then Prepend([p[0]], ExpandPattern(p[1..], n, seen))
    else
      var k := LeadingDigits(p[1..]);
      if 1 + k == |p| then None
      else if p[1 + k] == '%' then Prepend("%", ExpandPattern(p[2 + k..], n, seen))
      else if p[1 + k] == 'd' && !seen then
        assert p[1..1 + k] == p[1..][..k];
        Prepend(ZeroPad(n, Value(p[1..1 + k])), ExpandPattern(p[2 + k..], n, true))
      else None
  }

  lemma {:induction false} ExpandLiteralPrefix(prefix: string, rest: string, n: nat, seen: bool)
    requires '%' !in prefix
    ensures ExpandPattern(prefix + rest, n, seen) == Prepend(prefix, ExpandPattern(rest, n, seen))
  {
    if prefix == [] {
      assert prefix + rest == rest;
      match ExpandPattern(rest, n, seen)
      case Some(s) => assert prefix + s == s;
      case None =>
    } else {
      var p := prefix + rest;
      assert p[0] == prefix[0] && p[1..] == prefix[1..] + rest;
      assert ExpandPattern(p, n, seen) == Prepend([prefix[0]], ExpandPattern(prefix[1..] + rest, n, seen));
      ExpandLiteralPrefix(prefix[1..], rest, n, seen);
      PrependTwice([prefix[0]], prefix[1..], ExpandPattern(rest, n, seen));
      assert [prefix[0]] + prefix[1..] == prefix;
    }
  }

  lemma {:induction false} LeadingDigitsOf(digits: string, s: string)
    requires AllDigits(digits)
    requires s == [] || !IsDigit(s[0])
    ensures LeadingDigits(digits + s) == |digits|
  {
    if digits == [] {
      assert digits + s == s;
    } else {
      assert (digits + s)[1..] == digits[1..] + s;
      LeadingDigitsOf(digits[1..], s);
    }
  }

  /** The directive `%0<pad>d` names the width `pad`. */
  lemma DirectiveWidth(pad: nat)
    ensures var w := NatToString(pad);
      var p := "%0" + w + "d.png";
      LeadingDigits(p[1..]) == 1 + |w| && Value(p[1..2 + |w|]) == pad
  {
    var w := NatToString(pad);
    var p := "%0" + w + "d.png";
    assert p[1..] == ("0" + w) + "d.png";
    LeadingDigitsOf("0" + w, "d.png");
    assert p[1..2 + |w|] == Zeros(1) + w;
    ValueIgnoresLeadingZeros(1, w);
    ValueOfNatToString(pad);
  }

  /** After the directive, `.png` reads as itself. */
  lemma ExtensionExpansion(n: nat)
    ensures ExpandPattern(".png", n, true) == Some(".png")
  {
    var png := ".png";
    assert png + [] == png;
    ExpandLiteralPrefix(png, [], n, true);
    assert ExpandPattern([], n, true) == Some([]);
  }

  /** The pattern's directive reads frame `n` as `n` padded to the pad width. */
  lemma DirectiveExpansion(pad: nat, n: nat)
    ensures ExpandPattern("%0" + NatToString(pad) + "d.png", n, false) == Some(ZeroPad(n, pad) + ".png")
  {
    var w := NatToString(pad);
    var p := "%0" + w + "d.png";
    var k := 1 + |w|;
    DirectiveWidth(pad);
    ExtensionExpansion(n);
    assert p[0] == '%' && |p| == k + 6 && p[1 + k] == 'd' && p[2 + k..] == ".png";
  }


  /**
   * With a base name free of `%`, the pattern reads frame `idx` as the base
   * name taken verbatim, the pad width the frame writer uses and `.png`.
   */
  lemma PatternNamesFrames(ec: EncoderConfig, idx: nat)
    requires '%' !in ec.basename
    ensures ExpandPattern(BuildPatternAndOut(ec).0, idx, false) ==
      Some(FrameNaming.FrameFileName(ec.basename, FrameNaming.ZeroPadWidth(ec.totalFrames), idx))
  {
    var pad := ZeroPadWidth(ec.totalFrames);
    PadWidthsAgree(ec.totalFrames);
    var rest := "%0" + NatToString(pad) + "d.png";
    assert BuildPatternAndOut(ec).0 == ec.basename + "_%0" + IntToString(pad) + "d.png";
    assert BuildPatternAndOut(ec).0 == (ec.basename + "_") + rest;
    ExpandLiteralPrefix(ec.basename + "_", rest, idx, false);
    DirectiveExpansion(pad, idx);
    assert (ec.basename + "_") + (ZeroPad(idx, pad) + ".png") == FrameNaming.FrameFileName(ec.basename, pad, idx);
  }

  /**
   * With a base name free of `%` and of braces, the pattern reads frame
   * `idx` as exactly the name the frame writer gives it.
   */
  lemma WriterAndEncoderAgree(ec: EncoderConfig, idx: nat)
    requires '%' !in ec.basename
    requires forall i :: 0 <= i < |ec.basename| ==> !FrameNaming.IsBrace(ec.basename[i])
    ensures ExpandPattern(BuildPatternAndOut(ec).0, idx, false) ==
      FrameNaming.FrameName(ec.basename, FrameNaming.ZeroPadWidth(ec.totalFrames), idx)
  {
    PatternNamesFrames(ec, idx);
    FrameNaming.PlainBaseNamesVerbatim(ec.basename, FrameNaming.ZeroPadWidth(ec.totalFrames), idx);
  }

  /**
   * With the base name `a{{b` the writer saves frame 1 as `a{b_0001.png`
   * while the pattern reads it as `a{{b_0001.png`: the encoder does not
   * find the frames.
   */
  lemma BracedBaseMismatch(ec: EncoderConfig)
    requires ec.basename == "a{{b" && ec.totalFrames == 1
    ensures FrameNaming.FrameName(ec.basename, FrameNaming.ZeroPadWidth(ec.totalFrames), 1) == Some("a{b_0001.png")
    ensures ExpandPattern(BuildPatternAndOut(ec).0, 1, false) == Some("a{{b_0001.png")
  {
    assert IntToString(1) == "1";
    assert FrameNaming.ZeroPadWidth(1) == 4;
    FrameNaming.BracedBaseNameDiffers();
    PatternNamesFrames(ec, 1);
  }

  /**
   * With the base name `a%b` the writer saves frame 1 as `a%b_0001.png`,
   * but the pattern `a%b_%04d.png` holds the stray directive `%b` and reads
   * no file at all.
   */
  lemma PercentBaseUnreadable(ec: EncoderConfig)
    requires ec.basename == "a%b" && ec.totalFrames == 1
    ensures FrameNaming.FrameName(ec.basename, FrameNaming.ZeroPadWidth(ec.totalFrames), 1) == Some("a%b_0001.png")
    ensures ExpandPattern(BuildPatternAndOut(ec).0, 1, false) == None
  {
    assert FrameNaming.ZeroPadWidth(ec.totalFrames) == 4 by {
      assert IntToString(1) == "1";
    }
    FrameNaming.PercentBaseNameVerbatim();
    assert BuildPatternAndOut(ec).0 == "a%b_%04d.png" by {
      assert ZeroPadWidth(1) == 4 by {
        assert IntToString(1) == "1";
      }
      assert IntToString(4) == "4";
    }
    StrayDirective();
  }

  /** `%b` is no directive: the pattern `a%b_%04d.png` is invalid. */
  lemma StrayDirective()
    ensures ExpandPattern("a%b_%04d.png", 1, false) == None
  {
    var rest := "%b_%04d.png";
    assert "a%b_%04d.png" == "a" + rest;
    ExpandLiteralPrefix("a", rest, 1, false);
    assert rest[1..][0] == 'b' && LeadingDigits(rest[1..]) == 0;
  }

  // -----------------------------------------------------------------------
  // A pattern that reads every frame the writer saves

  /** `s` with each `%` doubled, so that a pattern reads it back verbatim. */
  function EscapePercent(s: string): (e: string)
    ensures |e| >= |s|
  {
    if s == [] then []
    else if s[0] == '%' then "%%" + EscapePercent(s[1..])
    else [s[0]] + EscapePercent(s[1..])
  }

  lemma {:induction false} ExpandEscaped(text: string, rest: string, n: nat, seen: bool)
    ensures ExpandPattern(EscapePercent(text) + rest, n, seen) == Prepend(text, ExpandPattern(rest, n, seen))
  {
    if text == [] {
      assert EscapePercent(text) + rest == rest;
      match ExpandPattern(rest, n, seen)
      case Some(s) => assert text + s == s;
      case None =>
    } else {
      var tail := EscapePercent(text[1..]) + rest;
      var p := EscapePercent(text) + rest;
      if text[0] == '%' {
        assert p == "%%" + tail;
        assert p[1..][0] == '%';
        assert LeadingDigits(p[1..]) == 0;
        assert p[2..] == tail;
      } else {
        assert p == [text[0]] + tail;
        assert p[1..] == tail;
      }
      assert ExpandPattern(p, n, seen) == Prepend([text[0]], ExpandPattern(tail, n, seen));
      ExpandEscaped(text[1..], rest, n, seen);
      PrependTwice([text[0]], text[1..], ExpandPattern(rest, n, seen));
      assert [text[0]] + text[1..] == text;
    }
  }

  /**
   * The pattern the encoder evidently means: the base name as the writer's
   * `format` pass renders it, with each `%` doubled, then `_%0<pad>d.png`.
   * A base name that does not format yields no frames; it is used as is.
   */
  function CorrectedPattern(ec: EncoderConfig): (p: string)
    ensures |p| >= 8
  {
    var shown := match FrameNaming.FormatBase(ec.basename)
      case Some(text) => text
      case None => ec.basename;
    EscapePercent(shown) + "_%0" + IntToString(ZeroPadWidth(ec.totalFrames)) + "d.png"
  }

  /**
   * Whatever the base name holds, the corrected pattern reads frame `idx`
   * as exactly the name the frame writer saves it under.
   */
  lemma CorrectedPatternNamesFrames(ec: EncoderConfig, idx: nat)
    requires FrameNaming.FormatBase(ec.basename).Some?
    ensures ExpandPattern(CorrectedPattern(ec), idx, false) ==
      FrameNaming.FrameName(ec.basename, FrameNaming.ZeroPadWidth(ec.totalFrames), idx)
  {
    var text := FrameNaming.FormatBase(ec.basename).value;
    var pad := ZeroPadWidth(ec.totalFrames);
    var directive := "%0" + NatToString(pad) + "d.png";
    var digits := ZeroPad(idx, pad);
    assert ExpandPattern(CorrectedPattern(ec), idx, false) == Prepend(text, Prepend("_", Some(digits + ".png"))) by {
      assert CorrectedPattern(ec) == EscapePercent(text) + ("_" + directive);
      ExpandEscaped(text, "_" + directive, idx, false);
      ExpandLiteralPrefix("_", directive, idx, false);
      DirectiveExpansion(pad, idx);
    }
    assert Prepend(text, Prepend("_", Some(digits + ".png"))) == Some(FrameNaming.FrameFileName(text, pad, idx)) by {
      PrependTwice(text, "_", Some(digits + ".png"));
      assert (text + "_") + (digits + ".png") == FrameNaming.FrameFileName(text, pad, idx);
    }
    PadWidthsAgree(ec.totalFrames);
  }

  // -----------------------------------------------------------------------
  // The ffmpeg command

  /** `cmd` in `run_ffmpeg(pattern, outpath)`. */
  function FfmpegCommand(ec: EncoderConfig, pattern: string, outpath: string): (cmd: seq<string>)
    ensures |cmd| == 13 && cmd[0] == ec.ffmpegBin && cmd[12] == outpath
  {
    [ec.ffmpegBin, "-y",
     "-framerate", IntToString(ec.fps),
     "-i", pattern,
     "-c:v", "libvpx-vp9",
     "-pix_fmt", "yuva420p",
     "-auto-alt-ref", "0",
     outpath]
  }

  /** A command-line argument as ffmpeg reads it. */
  datatype Arg = Switch(name: string) | Setting(name: string, value: string) | OutputFile(path: string)

  /** An argument of two or more characters starting with `-` names an option. */
  predicate IsOptionToken(t: string) { |t| >= 2 && t[0] == '-' }

  /**
   * Reads arguments ffmpeg's way: `-y` stands alone, every other option
   * takes the next argument as its value, and anything else is an output
   * file. None when an option lacks its value.
   */
  function ReadArgs(args: seq<string>): Option<seq<Arg>>
    decreases |args|
  {
    if args == [] then Some([])
    else if !IsOptionToken(args[0]) then
      match ReadArgs(args[1..])
      case Some(rest) => Some([OutputFile(args[0])] + rest)
      case None => None
    else if args[0] == "-y" then
      match ReadArgs(args[1..])
      case Some(rest) => Some([Switch("-y")] + rest)
      case None => None
    else if |args| < 2 then None
    else
      match ReadArgs(args[2..])
      case Some(rest) => Some([Setting(args[0], args[1])] + rest)
      case None => None
  }

  /**
   * ffmpeg reads the command as: overwrite, input frame rate `FPS`, input
   * `pattern`, VP9 with an alpha-capable pixel format and no alternate
   * reference frames, and one output file `outpath`.
   */
  lemma CommandReadsAsIntended(ec: EncoderConfig, pattern: string, outpath: string)
    requires !IsOptionToken(outpath)
    ensures ReadArgs(FfmpegCommand(ec, pattern, outpath)[1..]) == Some([
      Switch("-y"),
      Setting("-framerate", IntToString(ec.fps)),
      Setting("-i", pattern),
      Setting("-c:v", "libvpx-vp9"),
      Setting("-pix_fmt", "yuva420p"),
      Setting("-auto-alt-ref", "0"),
      OutputFile(outpath)])
  {
    var tail := [outpath];
    assert tail[1..] == [] && ReadArgs([]) == Some([]);
    assert [OutputFile(outpath)] + [] == [OutputFile(outpath)];
    assert ReadArgs(tail) == Some([OutputFile(outpath)]);
    var parsed := [OutputFile(outpath)];
    var s := tail;
    ReadSetting("-auto-alt-ref", "0", s, parsed);
    s, parsed := ["-auto-alt-ref", "0"] + s, [Setting("-auto-alt-ref", "0")] + parsed;
    ReadSetting("-pix_fmt", "yuva420p", s, parsed);
    s, parsed := ["-pix_fmt", "yuva420p"] + s, [Setting("-pix_fmt", "yuva420p")] + parsed;
    ReadSetting("-c:v", "libvpx-vp9", s, parsed);
    s, parsed := ["-c:v", "libvpx-vp9"] + s, [Setting("-c:v", "libvpx-vp9")] + parsed;
    ReadSetting("-i", pattern, s, parsed);
    s, parsed := ["-i", pattern] + s, [Setting("-i", pattern)] + parsed;
    ReadSetting("-framerate", IntToString(ec.fps), s, parsed);
    s, parsed := ["-framerate", IntToString(ec.fps)] + s, [Setting("-framerate", IntToString(ec.fps))] + parsed;
    assert (["-y"] + s)[1..] == s;
    assert ReadArgs(["-y"] + s) == Some([Switch("-y")] + parsed);
    assert FfmpegCommand(ec, pattern, outpath)[1..] == ["-y"] + s;
    assert [Switch("-y")] + parsed == [
      Switch("-y"),
      Setting("-framerate", IntToString(ec.fps)),
      Setting("-i", pattern),
      Setting("-c:v", "libvpx-vp9"),
      Setting("-pix_fmt", "yuva420p"),
      Setting("-auto-alt-ref", "0"),
      OutputFile(outpath)];
  }

  lemma ReadSetting(name: string, value: string, rest: seq<string>, parsed: seq<Arg>)
    requires IsOptionToken(name) && name != "-y"
    requires ReadArgs(rest) == Some(parsed)
    ensures ReadArgs([name, value] + rest) == Some([Setting(name, value)] + parsed)
  {
    assert ([name, value] + rest)[2..] == rest;
  }

  /** The value of the first `-i` setting among the read arguments. */
  function InputOf(args: seq<Arg>): Option<string>
  {
    if args == [] then None
    else if args[0].Setting? && args[0].name == "-i" then Some(args[0].value)
    else InputOf(args[1..])
  }

  /** The input file ffmpeg reads from an argument list, if it reads one. */
  function ReadInput(args: seq<string>): Option<string>
  {
    match ReadArgs(args)
    case Some(read) => InputOf(read)
    case None => None
  }

  /** The one input ffmpeg reads from the command is the pattern it was given. */
  lemma CommandInput(ec: EncoderConfig, pattern: string, outpath: string)
    requires !IsOptionToken(outpath)
    ensures ReadInput(FfmpegCommand(ec, pattern, outpath)[1..]) == Some(pattern)
  {
    CommandReadsAsIntended(ec, pattern, outpath);
    var read := ReadArgs(FfmpegCommand(ec, pattern, outpath)[1..]).value;
    assert read[1..][1..] == read[2..];
    assert InputOf(read) == InputOf(read[1..]) == InputOf(read[2..]);
  }

  /**
   * The command built from `build_pattern_and_out()` makes ffmpeg read, for
   * every frame `idx`, the file the frame writer saved frame `idx` under,
   * provided the base name holds no `%` and no brace.
   */
  lemma EncoderInputIsFrameSequence(ec: EncoderConfig, idx: nat)
    requires '%' !in ec.basename
    requires forall i :: 0 <= i < |ec.basename| ==> !FrameNaming.IsBrace(ec.basename[i])
    requires !IsOptionToken(BuildPatternAndOut(ec).1)
    ensures var r := BuildPatternAndOut(ec);
      var input := ReadInput(FfmpegCommand(ec, r.0, r.1)[1..]);
      input.Some? &&
      ExpandPattern(input.value, idx, false) ==
        FrameNaming.FrameName(ec.basename, FrameNaming.ZeroPadWidth(ec.totalFrames), idx)
  {
    var r := BuildPatternAndOut(ec);
    CommandInput(ec, r.0, r.1);
    WriterAndEncoderAgree(ec, idx);
  }

  /**
   * Built with the corrected pattern, the command makes ffmpeg read, for
   * every frame `idx`, the file the frame writer saved frame `idx` under,
   * whatever `%` or doubled braces the base name holds.
   */
  lemma CorrectedCommandReadsFrames(ec: EncoderConfig, idx: nat)
    requires FrameNaming.FormatBase(ec.basename).Some?
    requires !IsOptionToken(BuildPatternAndOut(ec).1)
    ensures var input := ReadInput(FfmpegCommand(ec, CorrectedPattern(ec), BuildPatternAndOut(ec).1)[1..]);
      input.Some? &&
      ExpandPattern(input.value, idx, false) ==
        FrameNaming.FrameName(ec.basename, FrameNaming.ZeroPadWidth(ec.totalFrames), idx)
  {
    CommandInput(ec, CorrectedPattern(ec), BuildPatternAndOut(ec).1);
    CorrectedPatternNamesFrames(ec, idx);
  }

  // -----------------------------------------------------------------------
  // ffmpeg's exit status

  /** After ffmpeg exits: a nonzero status raises an error carrying it; zero finishes. */
  function FinishEncode(returncode: int): (r: Result<(), string>)
    ensures r.Success? <==> returncode == 0
  {
    if returncode != 0 then Failure("ffmpeg failed with exit code: " + IntToString(returncode))
    else Success(())
  }

  /** The error raised for a nonzero status names that status, which reads back from it. */
  lemma FailureCarriesCode(returncode: int)
    requires returncode != 0 && WithinStrDigits(returncode)
    ensures var r := FinishEncode(returncode);
      r.Failure? && |r.error| > 30 && ParseInt(r.error[30..]) == Some(returncode)
  {
    var message := FinishEncode(returncode).error;
    assert message[30..] == IntToString(returncode);
    ParseIntOfIntToString(returncode);
  }
}
