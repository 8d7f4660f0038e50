/**
 * The file-name contract between the frame writer and the encoder:
 * the pad width derived from the frame count (`zero_pad_width`) and the
 * name `<BASENAME>_<idx zero-padded to pad>.png` of frame `idx`, with the
 * base name read by `str.format` as the frame writer reads it.
 */
module FrameNaming {
  import opened Outcomes
  import opened Decimal

  /** `max(4, len(str(total)))`, the number of digits in every frame name. */
  function ZeroPadWidth(total: int): (pad: nat)
    ensures pad >= 4 && pad >= |IntToString(total)|
    ensures pad == 4 || pad == |IntToString(total)|
  {
    var n := |IntToString(total)|;
    if n > 4 then n else 4
  }

  // -----------------------------------------------------------------------
  // The base name as `str.format` reads it

  predicate IsBrace(c: char) { c == '{' || c == '}' }

  /**
   * What `str.format` makes of `base` standing as literal text at the head
   * of the frame-name template `<base>_{:0<pad>d}.png`: `{{` and `}}` are
   * one brace each. Any other brace opens or closes a replacement field;
   * such a field takes the template's only argument or leaves the
   * template's own field without one, and the call raises (None).
   */
  function FormatBase(base: string): (r: Option<string>)
    ensures r.Some? ==> |r.value| <= |base|
    ensures |base| > 0 && IsBrace(base[|base| - 1]) && r.Some? ==> |r.value| < |base|
    decreases |base|
  {
    if base == [] then Some([])
    else if IsBrace(base[0]) then
      if |base| >= 2 && base[1] == base[0] then Prepend([base[0]], FormatBase(base[2..])) else None
    else Prepend([base[0]], FormatBase(base[1..]))
  }

  /** `text` with every brace doubled: the base name that formats to `text`. */
  function EscapeBraces(text: string): (base: string)
    ensures |base| >= |text|
  {
    if text == [] then []
    else if IsBrace(text[0]) then [text[0], text[0]] + EscapeBraces(text[1..])
    else [text[0]] + EscapeBraces(text[1..])
  }

  /** A base name without braces formats to itself. */
  lemma {:induction false} FormatPlainBase(base: string)
    requires forall i :: 0 <= i < |base| ==> !IsBrace(base[i])
    ensures FormatBase(base) == Some(base)
  {
    if base != [] {
      FormatPlainBase(base[1..]);
      assert [base[0]] + base[1..] == base;
    }
  }

  /** Doubling the braces of any text gives a base name that formats back to it. */
  lemma {:induction false} FormatEscapedBase(text: string)
    ensures FormatBase(EscapeBraces(text)) == Some(text)
  {
    if text != [] {
      var base := EscapeBraces(text);
      FormatEscapedBase(text[1..]);
      if IsBrace(text[0]) {
        assert base[2..] == EscapeBraces(text[1..]);
      } else {
        assert base[1..] == EscapeBraces(text[1..]);
      }
      assert [text[0]] + text[1..] == text;
    }
  }

  /** `a{{b` formats to `a{b`; a lone brace or an empty field `{}` raises. */
  lemma FormatBaseExamples()
    ensures FormatBase("a{{b") == Some("a{b")
    ensures FormatBase("a}b") == None
    ensures FormatBase("x{}") == None
  {
    assert "b"[1..] == [] && FormatBase([]) == Some([]) && ['b'] + [] == "b";
    assert FormatBase("b") == Some("b");
    assert "{{b"[2..] == "b" && ['{'] + "b" == "{b";
    assert FormatBase("{{b") == Some("{b");
    assert "a{{b"[1..] == "{{b" && ['a'] + "{b" == "a{b";
    assert "}b"[1] != '}';
    assert "a}b"[1..] == "}b";
    assert "{}"[1] != '{';
    assert "x{}"[1..] == "{}";
  }

  // -----------------------------------------------------------------------
  // Frame names

  /** The name `<prefix>_<idx zero-padded to pad>.png`, `prefix` taken verbatim. */
  function FrameFileName(prefix: string, pad: nat, idx: nat): (name: string)
    ensures |name| == |prefix| + 5 + |ZeroPad(idx, pad)|
    ensures name[..|prefix| + 1] == prefix + "_"
    ensures name[|name| - 4..] == ".png"
  {
    prefix + "_" + ZeroPad(idx, pad) + ".png"
  }

  /**
   * `f"{base}_{{:0{pad}d}}.png".format(idx)` as the frame writer computes
   * it: the base name goes through `str.format` with the rest of the
   * template. None when that call raises.
   */
  function FrameName(base: string, pad: nat, idx: nat): (name: Option<string>)
    ensures name.Some? <==> FormatBase(base).Some?
    ensures name.Some? ==> |name.value| <= |base| + 5 + |ZeroPad(idx, pad)|
  {
    match FormatBase(base)
    case Some(text) => Some(FrameFileName(text, pad, idx))
    case None => None
  }

  /** A base name without braces names frame `idx` verbatim. */
  lemma PlainBaseNamesVerbatim(base: string, pad: nat, idx: nat)
    requires forall i :: 0 <= i < |base| ==> !IsBrace(base[i])
    ensures FrameName(base, pad, idx) == Some(FrameFileName(base, pad, idx))
  {
    FormatPlainBase(base);
  }

  /**
   * The base name `a{{b` names frame 1 of a four-digit run `a{b_0001.png`,
   * not the `a{{b_0001.png` it reads as verbatim.
   */
  lemma BracedBaseNameDiffers()
    ensures FrameName("a{{b", 4, 1) == Some("a{b_0001.png")
    ensures FrameFileName("a{{b", 4, 1) == "a{{b_0001.png"
  {
    FormatBaseExamples();
    assert NatToString(1) == "1";
    assert ZeroPad(1, 4) == "0001";
    assert FrameFileName("a{b", 4, 1) == "a{b" + "_" + "0001" + ".png" == "a{b_0001.png";
  }

  /** The base name `a%b` holds no brace: it names frame 1 of a four-digit run `a%b_0001.png`. */
  lemma PercentBaseNameVerbatim()
    ensures FrameName("a%b", 4, 1) == Some("a%b_0001.png")
  {
    var base := "a%b";
    assert forall i :: 0 <= i < |base| ==> !IsBrace(base[i]);
    PlainBaseNamesVerbatim(base, 4, 1);
    assert NatToString(1) == "1";
    assert ZeroPad(1, 4) == "0001";
    assert FrameFileName(base, 4, 1) == base + "_" + "0001" + ".png" == "a%b_0001.png";
  }

  /** The digits of a frame name, between `<prefix>_` and `.png`. */
  function IndexDigits(prefix: string, name: string): (digits: string)
    requires |name| >= |prefix| + 5
  {
    name[|prefix| + 1..|name| - 4]
  }

  /** Every frame number of a run fits its pad width: no name overflows it. */
  lemma PadFitsEveryIndex(total: int, idx: nat)
    requires 1 <= idx <= total
    ensures |NatToString(idx)| <= ZeroPadWidth(total)
  {
    NatToStringMonotone(idx, total);
  }

  /**
   * Frame `idx` of a run is `<prefix>_`, exactly `pad` digits that read back
   * as `idx`, and `.png`; so all names of one run have the same length.
   */
  lemma FrameFileNameShape(prefix: string, total: int, idx: nat)
    requires 1 <= idx <= total
    ensures var pad := ZeroPadWidth(total);
      var name := FrameFileName(prefix, pad, idx);
      |name| == |prefix| + pad + 5 &&
      |IndexDigits(prefix, name)| == pad &&
      AllDigits(IndexDigits(prefix, name)) &&
      Value(IndexDigits(prefix, name)) == idx
  {
    var pad := ZeroPadWidth(total);
    PadFitsEveryIndex(total, idx);
    ValueOfZeroPad(idx, pad);
    var name := FrameFileName(prefix, pad, idx);
    assert IndexDigits(prefix, name) == ZeroPad(idx, pad);
  }

  /** Within one run, a lower frame number gives a name that sorts first. */
  lemma FrameFileNameOrder(prefix: string, total: int, i: nat, j: nat)
    requires 1 <= i < j <= total
    ensures LexLess(FrameFileName(prefix, ZeroPadWidth(total), i), FrameFileName(prefix, ZeroPadWidth(total), j))
  {
    var pad := ZeroPadWidth(total);
    PadFitsEveryIndex(total, i);
    PadFitsEveryIndex(total, j);
    ZeroPadOrder(i, j, pad);
    var x, y := ZeroPad(i, pad), ZeroPad(j, pad);
    LexLessExtend(x, y, ".png", ".png");
    LexLessPrefix(prefix + "_", x + ".png", y + ".png");
    assert prefix + "_" + x + ".png" == (prefix + "_") + (x + ".png");
    assert prefix + "_" + y + ".png" == (prefix + "_") + (y + ".png");
  }

  /** Within one run, distinct frame numbers give distinct names. */
  lemma FrameFileNameInjective(prefix: string, total: int, i: nat, j: nat)
    requires 1 <= i <= total && 1 <= j <= total && i != j
    ensures FrameFileName(prefix, ZeroPadWidth(total), i) != FrameFileName(prefix, ZeroPadWidth(total), j)
  {
    var pad := ZeroPadWidth(total);
    if i < j {
      FrameFileNameOrder(prefix, total, i, j);
      LexLessIrreflexive(FrameFileName(prefix, pad, i));
    } else {
      FrameFileNameOrder(prefix, total, j, i);
      LexLessIrreflexive(FrameFileName(prefix, pad, j));
    }
  }
}
