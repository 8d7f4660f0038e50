/**
 * One run of `generate_frames.py`: setup, the preview, the optional early
 * return, the seed, and the frame loop that saves one numbered PNG per
 * frame; then `main`'s mapping from the run's outcome to an exit status.
 *
 * Pixels are not modelled: a save is an event carrying the file path and
 * the point at which the image is pasted. Whether a save succeeds, what the
 * image decoder reports and the drifted paste point of each frame are
 * parameters.
 */
module Generation {
  import opened Outcomes
  import opened Decimal
  import opened Paths
  import opened FrameNaming
  import opened Placement
  import opened PreviewGrid
  import opened Seeds

  /** `TARGET_PIXEL_WIDTH` once the module is loaded: `""` (unset) or an integer. */
  datatype TargetWidth = Unset | Pixels(width: int)

  /** The settings the run reads, fixed for the whole run. */
  datatype Config = Config(
    outputDir: string,
    framesDir: string,
    basename: string,
    layout: Layout,
    totalFrames: int,
    targetPixelWidth: TargetWidth,
    noiseSeed: Option<string>)

  /**
   * What the file system and the image library report about the input:
   * whether the file exists, whether it decodes, its decoded size, and the
   * rounded results of the floating-point resize arithmetic.
   */
  datatype SourceImage = SourceImage(
    present: bool,         // os.path.isfile(INPUT_IMAGE)
    decodes: bool,         // Image.open(INPUT_IMAGE).convert("RGBA") succeeds
    width: int,
    height: int,
    heightAtTarget: int,   // int(round(h0 * (target_w / w0)))
    widthAtScale: int,     // int(round(w0 * SCALE))
    heightAtScale: int)    // int(round(h0 * SCALE))

  /** The directories could be created, and the input image. */
  datatype World = World(dirsCreated: bool, source: SourceImage)

  /** `ConfigError`, `GenerationError`, or any other exception. */
  datatype ErrorKind = ConfigError | GenerationError | OtherError

  datatype Size = Size(w: int, h: int)

  /** One saved image: its path and where the source image was pasted on it. */
  datatype Saved = Saved(path: string, at: Point)

  datatype RunOutcome = Completed | Raised(kind: ErrorKind)

  /** What a run ends with and the images it saved, in order. */
  datatype Run = Run(outcome: RunOutcome, saves: seq<Saved>)

  /** Python truthiness of `TARGET_PIXEL_WIDTH`: set and not zero. */
  predicate HasTargetWidth(t: TargetWidth) { t.Pixels? && t.width != 0 }

  /** `img.resize((w, h))`: the image library refuses a size that is not positive. */
  function Resize(w: int, h: int): Result<Size, ErrorKind>
  {
    if w > 0 && h > 0 then Success(Size(w, h)) else Failure(OtherError)
  }

  /**
   * `load_and_scale_image`: a missing input is a `ConfigError`; an input
   * that does not decode raises; a truthy target width fixes the output
   * width exactly (dividing by a zero source width raises); otherwise both
   * sides are scaled by `SCALE`. A resize to a size that is not positive
   * raises.
   */
  function LoadAndScaleImage(target: TargetWidth, src: SourceImage): (r: Result<Size, ErrorKind>)
    ensures !src.present ==> r == Failure(ConfigError)
    ensures src.present && r.Failure? ==> r.error == OtherError
    ensures src.present && !src.decodes ==> r.Failure?
    ensures r.Success? ==> r.value.w > 0 && r.value.h > 0
    ensures src.present && src.decodes && HasTargetWidth(target) ==>
      (r.Success? <==> src.width != 0 && target.width > 0 && src.heightAtTarget > 0) &&
      (r.Success? ==> r.value == Size(target.width, src.heightAtTarget))
    ensures src.present && src.decodes && !HasTargetWidth(target) ==>
      (r.Success? <==> src.widthAtScale > 0 && src.heightAtScale > 0) &&
      (r.Success? ==> r.value == Size(src.widthAtScale, src.heightAtScale))
  {
    if !src.present then Failure(ConfigError)
    else if !src.decodes then Failure(OtherError)
    else if HasTargetWidth(target) then
      if src.width == 0 then Failure(OtherError)
      else Resize(target.width, src.heightAtTarget)
    else Resize(src.widthAtScale, src.heightAtScale)
  }

  /** `ensure_dirs()` followed by `load_and_scale_image()`. */
  function Setup(cfg: Config, world: World): Result<Size, ErrorKind>
  {
    if !world.dirsCreated then Failure(OtherError)
    else LoadAndScaleImage(cfg.targetPixelWidth, world.source)
  }

  function PreviewPath(cfg: Config): string
  {
    JoinPath(cfg.outputDir, cfg.basename + "_preview.png")
  }

  /**
   * The path of frame `idx` (numbered from 1): `fname_template.format(idx)`
   * joined onto `FRAMES_DIR`. None when that `format` call raises.
   */
  function FramePath(cfg: Config, idx: nat): (path: Option<string>)
    ensures path.Some? <==> FormatBase(cfg.basename).Some?
  {
    match FrameName(cfg.basename, ZeroPadWidth(cfg.totalFrames), idx)
    case Some(name) => Some(JoinPath(cfg.framesDir, name))
    case None => None
  }

  /** The frame paths of a run, as one value the frame loop is handed. */
  function FramePaths(cfg: Config): nat -> Option<string>
  {
    (idx: nat) => FramePath(cfg, idx)
  }

  /** `len(range(TOTAL_FRAMES))`. */
  function FrameCount(cfg: Config): nat
  {
    if cfg.totalFrames > 0 then cfg.totalFrames else 0
  }

  /**
   * Passes `i` to `n - 1` of the frame loop: whether they all complete, and
   * the frames they save. Pass `i` saves frame `i + 1` to `pathOf(i + 1)`,
   * pasted at `paste(base, seed, i)`; it raises, ending the loop, when its
   * path cannot be formatted (None) or the save to it fails.
   */
  function LoopFrom(i: nat, n: nat, pathOf: nat -> Option<string>, base: Point, seed: int,
                    paste: (Point, int, nat) -> Point, accepts: string -> bool): (bool, seq<Saved>)
    decreases n - i
  {
    if i >= n then (true, [])
    else match pathOf(i + 1)
      case None => (false, [])
      case Some(path) =>
        if !accepts(path) then (false, [])
        else
          var (completed, rest) := LoopFrom(i + 1, n, pathOf, base, seed, paste, accepts);
          (completed, [Saved(path, paste(base, seed, i))] + rest)
  }

  /**
   * From pass `i` on, the frame loop saves frames `i + 1, i + 2, ...` in
   * order, each at its drifted paste point; it completes exactly when it
   * saved all of them up to `n`, and otherwise the pass after the last
   * saved frame raised.
   */
  lemma {:induction false} LoopSavesInOrder(i: nat, n: nat, pathOf: nat -> Option<string>, base: Point, seed: int,
                                            paste: (Point, int, nat) -> Point, accepts: string -> bool)
    requires i <= n
    ensures var (completed, saved) := LoopFrom(i, n, pathOf, base, seed, paste, accepts);
      i + |saved| <= n &&
      (completed <==> i + |saved| == n) &&
      (forall j :: 0 <= j < |saved| ==>
         pathOf(i + j + 1) == Some(saved[j].path) && accepts(saved[j].path) &&
         saved[j].at == paste(base, seed, i + j)) &&
      (!completed ==> pathOf(i + |saved| + 1).None? || !accepts(pathOf(i + |saved| + 1).value))
    decreases n - i
  {
    if i < n && pathOf(i + 1).Some? && accepts(pathOf(i + 1).value) {
      LoopSavesInOrder(i + 1, n, pathOf, base, seed, paste, accepts);
      var (completed, saved) := LoopFrom(i, n, pathOf, base, seed, paste, accepts);
      var rest := LoopFrom(i + 1, n, pathOf, base, seed, paste, accepts).1;
      assert saved == [Saved(pathOf(i + 1).value, paste(base, seed, i))] + rest;
      forall j | 1 <= j < |saved|
        ensures pathOf(i + j + 1) == Some(saved[j].path) && accepts(saved[j].path) &&
                saved[j].at == paste(base, seed, i + j)
      {
        assert saved[j] == rest[j - 1];
        assert i + j + 1 == (i + 1) + (j - 1) + 1;
      }
    }
  }

  /**
   * The run `generate_frames(preview_only)` performs when saves to the
   * paths `accepts` admits succeed and the others raise, the fallback
   * seed draw is `fallbackSeed`, and `paste(base, seed, i)` is the rounded,
   * drifted paste point of pass `i`.
   */
  function GenerateRun(cfg: Config, world: World, accepts: string -> bool, previewOnly: bool,
                       fallbackSeed: int, paste: (Point, int, nat) -> Point): Run
    requires 0 <= fallbackSeed <= MaxFallbackSeed
  {
    match Setup(cfg, world)
    case Failure(_) => Run(Raised(GenerationError), [])
    case Success(size) => AfterSetup(cfg, size, FramePaths(cfg), accepts, previewOnly, fallbackSeed, paste)
  }

  /**
   * The rest of the run once the image is loaded at `size`, with frame
   * `idx` written to `pathOf(idx)`: the preview, then the frame loop.
   */
  function AfterSetup(cfg: Config, size: Size, pathOf: nat -> Option<string>, accepts: string -> bool,
                      previewOnly: bool, fallbackSeed: int, paste: (Point, int, nat) -> Point): Run
    requires 0 <= fallbackSeed <= MaxFallbackSeed
  {
    var base := ComputeBasePosition(cfg.layout, size.w, size.h);
    var preview := Saved(PreviewPath(cfg), base);
    if !accepts(preview.path) then Run(Raised(GenerationError), [])
    else if previewOnly then Run(Completed, [preview])
    else
      var frames := FramePhase(cfg, pathOf, base, ResolveSeed(cfg.noiseSeed, fallbackSeed), paste, accepts);
      Run(frames.outcome, [preview] + frames.saves)
  }

  /** The frame loop as a run: it raises `OtherError` when one of its passes raised. */
  function FramePhase(cfg: Config, pathOf: nat -> Option<string>, base: Point, seed: int,
                      paste: (Point, int, nat) -> Point, accepts: string -> bool): Run
  {
    var loop := LoopFrom(0, FrameCount(cfg), pathOf, base, seed, paste, accepts);
    Run(if loop.0 then Completed else Raised(OtherError), loop.1)
  }

  /** The output directories as a log of the images saved into them. */
  class Disk {
    /** Whether a save to a given path succeeds. */
    const accepts: string -> bool
    var saved: seq<Saved>

    constructor (accepts: string -> bool)
      ensures this.accepts == accepts && saved == []
    {
      this.accepts := accepts;
      saved := [];
    }

    /** `image.save(path)`: appends to the log when the save succeeds. */
    method Save(path: string, at: Point) returns (ok: bool)
      modifies this
      ensures ok == accepts(path)
      ensures saved == if ok then old(saved) + [Saved(path, at)] else old(saved)
    {
      ok := accepts(path);
      if ok {
        saved := saved + [Saved(path, at)];
      }
    }
  }

  /**
   * The frame loop `for i in range(TOTAL_FRAMES)`: pass `i` saves frame
   * `i + 1` to `pathOf(i + 1)`, which is `fname_template.format(i + 1)`
   * joined onto `FRAMES_DIR` (None when `format` raises); the first pass
   * that raises ends the loop with its exception.
   */
  method SaveFrames(cfg: Config, disk: Disk, pathOf: nat -> Option<string>,
                    base: Point, seed: int, paste: (Point, int, nat) -> Point)
    returns (completed: bool)
    modifies disk
    ensures var loop := LoopFrom(0, FrameCount(cfg), pathOf, base, seed, paste, disk.accepts);
      completed == loop.0 && disk.saved == old(disk.saved) + loop.1
  {
    ghost var n := FrameCount(cfg);
    ghost var done: seq<Saved> := [];
    assert done + LoopFrom(0, n, pathOf, base, seed, paste, disk.accepts).1 ==
      LoopFrom(0, n, pathOf, base, seed, paste, disk.accepts).1;
    var i := 0;
    while i < cfg.totalFrames
      invariant 0 <= i <= n
      invariant disk.saved == old(disk.saved) + done
      invariant var (all, rest) := LoopFrom(i, n, pathOf, base, seed, paste, disk.accepts);
        LoopFrom(0, n, pathOf, base, seed, paste, disk.accepts) == (all, done + rest)
    {
      var idx := i + 1;
      var outpath := pathOf(idx);
      if outpath.None? {
        return false;
      }
      var frame := Saved(outpath.value, paste(base, seed, i));
      var ok := disk.Save(frame.path, frame.at);
      if !ok {
        return false;
      }
      ghost var rest := LoopFrom(i + 1, n, pathOf, base, seed, paste, disk.accepts).1;
      assert done + ([frame] + rest) == (done + [frame]) + rest;
      done := done + [frame];
      i := i + 1;
    }
    return true;
  }

  /** The frame loop, raising `OtherError` when one of its passes raised. */
  method RunFrames(cfg: Config, pathOf: nat -> Option<string>, disk: Disk, base: Point, seed: int,
                   paste: (Point, int, nat) -> Point)
    returns (outcome: RunOutcome)
    modifies disk
    ensures var run := FramePhase(cfg, pathOf, base, seed, paste, disk.accepts);
      outcome == run.outcome && disk.saved == old(disk.saved) + run.saves
  {
    var completed := SaveFrames(cfg, disk, pathOf, base, seed, paste);
    outcome := if completed then Completed else Raised(OtherError);
  }

  /**
   * `build_preview(OUT_W, OUT_H, img, (base_x, base_y), preview_path)`:
   * draws the checkerboard, pastes the image at the base position and
   * saves the preview; `ok` is false when the save raises.
   */
  method BuildPreview(cfg: Config, disk: Disk, base: Point) returns (ok: bool)
    modifies disk
    ensures ok == disk.accepts(PreviewPath(cfg))
    ensures disk.saved == if ok then old(disk.saved) + [Saved(PreviewPath(cfg), base)] else old(disk.saved)
  {
    var tiles := BuildTiles(cfg.layout.outW, cfg.layout.outH);
    ok := disk.Save(PreviewPath(cfg), base);
  }

  /** `generate_frames(preview_only)`, step by step. */
  method GenerateFrames(cfg: Config, world: World, disk: Disk, previewOnly: bool,
                        fallbackSeed: int, paste: (Point, int, nat) -> Point)
    returns (outcome: RunOutcome)
    requires 0 <= fallbackSeed <= MaxFallbackSeed
    modifies disk
    ensures var run := GenerateRun(cfg, world, disk.accepts, previewOnly, fallbackSeed, paste);
      outcome == run.outcome && disk.saved == old(disk.saved) + run.saves
  {
    var setup := Setup(cfg, world);
    if setup.Failure? {
      return Raised(GenerationError);
    }
    outcome := RunAfterSetup(cfg, setup.value, FramePaths(cfg), disk, previewOnly, fallbackSeed, paste);
  }

  /** `generate_frames` from the base position on: the preview, then the frame loop. */
  method RunAfterSetup(cfg: Config, size: Size, pathOf: nat -> Option<string>, disk: Disk, previewOnly: bool,
                       fallbackSeed: int, paste: (Point, int, nat) -> Point)
    returns (outcome: RunOutcome)
    requires 0 <= fallbackSeed <= MaxFallbackSeed
    modifies disk
    ensures var run := AfterSetup(cfg, size, pathOf, disk.accepts, previewOnly, fallbackSeed, paste);
      outcome == run.outcome && disk.saved == old(disk.saved) + run.saves
  {
    var base := ComputeBasePosition(cfg.layout, size.w, size.h);
    var ok := BuildPreview(cfg, disk, base);
    if !ok {
      return Raised(GenerationError);
    }
    if previewOnly {
      return Completed;
    }
    var seed := ResolveSeed(cfg.noiseSeed, fallbackSeed);
    ghost var preview := Saved(PreviewPath(cfg), base);
    ghost var frames := FramePhase(cfg, pathOf, base, seed, paste, disk.accepts);
    outcome := RunFrames(cfg, pathOf, disk, base, seed, paste);
    assert disk.saved == old(disk.saved) + ([preview] + frames.saves) by {
      assert (old(disk.saved) + [preview]) + frames.saves == old(disk.saved) + ([preview] + frames.saves);
    }
  }

  // -----------------------------------------------------------------------
  // Properties of a run

  /**
   * A failed setup saves nothing and raises `GenerationError`, whatever the
   * cause: directories that cannot be created, a missing input, one that
   * does not decode, a target width over a zero source width, or a resize
   * size that is not positive.
   */
  lemma SetupFailureSavesNothing(cfg: Config, world: World, accepts: string -> bool, previewOnly: bool,
                                 fallbackSeed: int, paste: (Point, int, nat) -> Point)
    requires 0 <= fallbackSeed <= MaxFallbackSeed
    requires Setup(cfg, world).Failure?
    ensures GenerateRun(cfg, world, accepts, previewOnly, fallbackSeed, paste) == Run(Raised(GenerationError), [])
  {
  }

  /** Every save of a run comes after the preview, which sits at the base position. */
  lemma PreviewSavedFirst(cfg: Config, world: World, accepts: string -> bool, previewOnly: bool,
                          fallbackSeed: int, paste: (Point, int, nat) -> Point)
    requires 0 <= fallbackSeed <= MaxFallbackSeed
    ensures var run := GenerateRun(cfg, world, accepts, previewOnly, fallbackSeed, paste);
      run.saves != [] ==>
        Setup(cfg, world).Success? &&
        var size := Setup(cfg, world).value;
        run.saves[0] == Saved(PreviewPath(cfg), ComputeBasePosition(cfg.layout, size.w, size.h))
  {
  }

  /**
   * With `preview_only` the preview is the only save, and the run ends
   * before the seed is chosen: neither the fallback draw nor the drift
   * can change it.
   */
  lemma PreviewOnlyRun(cfg: Config, world: World, accepts: string -> bool,
                       seed1: int, paste1: (Point, int, nat) -> Point,
                       seed2: int, paste2: (Point, int, nat) -> Point)
    requires 0 <= seed1 <= MaxFallbackSeed && 0 <= seed2 <= MaxFallbackSeed
    ensures var run := GenerateRun(cfg, world, accepts, true, seed1, paste1);
      run == GenerateRun(cfg, world, accepts, true, seed2, paste2) &&
      |run.saves| <= 1 &&
      (run.outcome == Completed <==> |run.saves| == 1) &&
      (|run.saves| == 1 ==> run.saves[0].path == PreviewPath(cfg))
  {
  }

  /**
   * After setup, for any frame path function: the saves past the preview
   * are frames `1, 2, ...` in order, each to its own path and accepted; a
   * completed frame loop saved all of them, and a failed one stopped at
   * the first frame whose path is missing or refused.
   */
  lemma AfterSetupSavesFrames(cfg: Config, size: Size, pathOf: nat -> Option<string>, accepts: string -> bool,
                              previewOnly: bool, fallbackSeed: int, paste: (Point, int, nat) -> Point)
    requires 0 <= fallbackSeed <= MaxFallbackSeed
    ensures var run := AfterSetup(cfg, size, pathOf, accepts, previewOnly, fallbackSeed, paste);
      var n := |run.saves|;
      n <= 1 + FrameCount(cfg) &&
      (forall j :: 1 <= j < n ==> pathOf(j) == Some(run.saves[j].path) && accepts(run.saves[j].path)) &&
      (run.outcome == Completed && !previewOnly ==> n == 1 + FrameCount(cfg)) &&
      (run.outcome == Raised(OtherError) ==>
         1 <= n <= FrameCount(cfg) && (pathOf(n).None? || !accepts(pathOf(n).value)))
  {
    var run := AfterSetup(cfg, size, pathOf, accepts, previewOnly, fallbackSeed, paste);
    var base := ComputeBasePosition(cfg.layout, size.w, size.h);
    if accepts(PreviewPath(cfg)) && !previewOnly {
      var seed := ResolveSeed(cfg.noiseSeed, fallbackSeed);
      LoopSavesInOrder(0, FrameCount(cfg), pathOf, base, seed, paste, accepts);
      var saved := LoopFrom(0, FrameCount(cfg), pathOf, base, seed, paste, accepts).1;
      assert run.saves == [Saved(PreviewPath(cfg), base)] + saved;
      forall j | 1 <= j < |run.saves|
        ensures pathOf(j) == Some(run.saves[j].path) && accepts(run.saves[j].path)
      {
        assert run.saves[j] == saved[j - 1];
        assert 0 + (j - 1) + 1 == j;
      }
    }
  }

  /** The frames of a run after the preview are frames `1, 2, ...`, in order. */
  lemma FramesSavedInSequence(cfg: Config, world: World, accepts: string -> bool, previewOnly: bool,
                              fallbackSeed: int, paste: (Point, int, nat) -> Point)
    requires 0 <= fallbackSeed <= MaxFallbackSeed
    ensures var run := GenerateRun(cfg, world, accepts, previewOnly, fallbackSeed, paste);
      |run.saves| <= 1 + FrameCount(cfg) &&
      forall j :: 1 <= j < |run.saves| ==> FramePath(cfg, j) == Some(run.saves[j].path)
  {
    if Setup(cfg, world).Success? {
      var size := Setup(cfg, world).value;
      AfterSetupSavesFrames(cfg, size, FramePaths(cfg), accepts, previewOnly, fallbackSeed, paste);
    }
  }

  /**
   * A run that completes without `preview_only` saves the preview and then
   * every frame `1..TOTAL_FRAMES`; none at all when `TOTAL_FRAMES <= 0`.
   */
  lemma CompletedRunSavesEveryFrame(cfg: Config, world: World, accepts: string -> bool,
                                    fallbackSeed: int, paste: (Point, int, nat) -> Point)
    requires 0 <= fallbackSeed <= MaxFallbackSeed
    requires GenerateRun(cfg, world, accepts, false, fallbackSeed, paste).outcome == Completed
    ensures var run := GenerateRun(cfg, world, accepts, false, fallbackSeed, paste);
      |run.saves| == 1 + FrameCount(cfg) &&
      run.saves[0].path == PreviewPath(cfg) &&
      (forall idx :: 1 <= idx <= FrameCount(cfg) ==> FramePath(cfg, idx) == Some(run.saves[idx].path)) &&
      (cfg.totalFrames <= 0 ==> |run.saves| == 1)
  {
    var size := Setup(cfg, world).value;
    AfterSetupSavesFrames(cfg, size, FramePaths(cfg), accepts, false, fallbackSeed, paste);
  }

  /**
   * A run that fails in the frame loop has saved the preview and frames
   * `1..n-1`, and the pass of frame `n` is the one that raised: its name
   * could not be formatted or its save failed.
   */
  lemma FailedFrameIsNext(cfg: Config, world: World, accepts: string -> bool,
                          fallbackSeed: int, paste: (Point, int, nat) -> Point)
    requires 0 <= fallbackSeed <= MaxFallbackSeed
    requires GenerateRun(cfg, world, accepts, false, fallbackSeed, paste).outcome == Raised(OtherError)
    ensures var run := GenerateRun(cfg, world, accepts, false, fallbackSeed, paste);
      var n := |run.saves|;
      1 <= n <= FrameCount(cfg) &&
      (FramePath(cfg, n).None? || !accepts(FramePath(cfg, n).value)) &&
      forall idx :: 1 <= idx < n ==> FramePath(cfg, idx).Some? && accepts(FramePath(cfg, idx).value)
  {
    var run := GenerateRun(cfg, world, accepts, false, fallbackSeed, paste);
    var size := Setup(cfg, world).value;
    var pathOf := FramePaths(cfg);
    assert run == AfterSetup(cfg, size, pathOf, accepts, false, fallbackSeed, paste);
    AfterSetupSavesFrames(cfg, size, pathOf, accepts, false, fallbackSeed, paste);
    assert pathOf(|run.saves|) == FramePath(cfg, |run.saves|);
    forall idx | 1 <= idx < |run.saves|
      ensures FramePath(cfg, idx).Some? && accepts(FramePath(cfg, idx).value)
    {
      assert pathOf(idx) == FramePath(cfg, idx);
    }
  }

  /**
   * A base name that `str.format` refuses (a lone brace, or a replacement
   * field such as `{}`) lets the preview through and then makes the first
   * frame raise: `main` exits with 1 with only the preview saved.
   */
  lemma UnformattableBaseFailsAfterPreview(argv: seq<string>, cfg: Config, world: World, accepts: string -> bool,
                                           fallbackSeed: int, paste: (Point, int, nat) -> Point)
    requires 0 <= fallbackSeed <= MaxFallbackSeed
    requires FormatBase(cfg.basename).None? && cfg.totalFrames > 0
    ensures var run := GenerateRun(cfg, world, accepts, PreviewRequested(argv), fallbackSeed, paste);
      PreviewRequested(argv) || run.outcome != Completed
    ensures var run := GenerateRun(cfg, world, accepts, false, fallbackSeed, paste);
      |run.saves| <= 1 && (|run.saves| == 1 <==> ExitCode(run.outcome) == 1)
  {
  }

  /** No run raises `ConfigError`: the missing input reaches `main` as a `GenerationError`. */
  lemma NoRunRaisesConfigError(cfg: Config, world: World, accepts: string -> bool, previewOnly: bool,
                               fallbackSeed: int, paste: (Point, int, nat) -> Point)
    requires 0 <= fallbackSeed <= MaxFallbackSeed
    ensures GenerateRun(cfg, world, accepts, previewOnly, fallbackSeed, paste).outcome != Raised(ConfigError)
  {
  }

  // -----------------------------------------------------------------------
  // The frame files

  /** When the base name formats, the frame files of a run sort by path in frame order. */
  lemma FramePathOrder(cfg: Config, i: nat, j: nat)
    requires FormatBase(cfg.basename).Some?
    requires 1 <= i < j <= cfg.totalFrames
    ensures LexLess(FramePath(cfg, i).value, FramePath(cfg, j).value)
  {
    var text := FormatBase(cfg.basename).value;
    var pad := ZeroPadWidth(cfg.totalFrames);
    var x, y := FrameFileName(text, pad, i), FrameFileName(text, pad, j);
    FrameFileNameOrder(text, cfg.totalFrames, i, j);
    assert x[0] == (text + "_")[0] == y[0];
    JoinPathOrder(cfg.framesDir, x, y);
  }

  /** Distinct frames of a run go to distinct files: none overwrites another. */
  lemma FramePathsDistinct(cfg: Config, i: nat, j: nat)
    requires FormatBase(cfg.basename).Some?
    requires 1 <= i <= cfg.totalFrames && 1 <= j <= cfg.totalFrames && i != j
    ensures FramePath(cfg, i).value != FramePath(cfg, j).value
  {
    if i < j {
      FramePathOrder(cfg, i, j);
      LexLessIrreflexive(FramePath(cfg, i).value);
    } else {
      FramePathOrder(cfg, j, i);
      LexLessIrreflexive(FramePath(cfg, j).value);
    }
  }

  /** The frames a run saved are in strictly increasing name order. */
  lemma SavedFramesSorted(cfg: Config, world: World, accepts: string -> bool, previewOnly: bool,
                          fallbackSeed: int, paste: (Point, int, nat) -> Point, a: nat, b: nat)
    requires 0 <= fallbackSeed <= MaxFallbackSeed
    requires 1 <= a < b < |GenerateRun(cfg, world, accepts, previewOnly, fallbackSeed, paste).saves|
    ensures var saves := GenerateRun(cfg, world, accepts, previewOnly, fallbackSeed, paste).saves;
      LexLess(saves[a].path, saves[b].path)
  {
    FramesSavedInSequence(cfg, world, accepts, previewOnly, fallbackSeed, paste);
    FramePathOrder(cfg, a, b);
  }

  // -----------------------------------------------------------------------
  // main

  /** `main` asks for the preview only when its first argument is `--preview`. */
  predicate PreviewRequested(argv: seq<string>)
  {
    |argv| > 0 && argv[0] == "--preview"
  }

  /** The process exit status `main` ends with for an outcome. */
  function ExitCode(outcome: RunOutcome): (code: int)
    ensures code == 0 <==> outcome == Completed
    ensures code == 1 <==> outcome == Raised(OtherError)
    ensures code == 2 <==> outcome == Raised(ConfigError)
    ensures code == 3 <==> outcome == Raised(GenerationError)
  {
    match outcome
    case Completed => 0
    case Raised(ConfigError) => 2
    case Raised(GenerationError) => 3
    case Raised(OtherError) => 1
  }

  /** `main(argv)`: one run, then its exit status. */
  method RunMain(argv: seq<string>, cfg: Config, world: World, disk: Disk,
                 fallbackSeed: int, paste: (Point, int, nat) -> Point)
    returns (code: int)
    requires 0 <= fallbackSeed <= MaxFallbackSeed
    modifies disk
    ensures var run := GenerateRun(cfg, world, disk.accepts, PreviewRequested(argv), fallbackSeed, paste);
      code == ExitCode(run.outcome) && disk.saved == old(disk.saved) + run.saves
  {
    var outcome := GenerateFrames(cfg, world, disk, PreviewRequested(argv), fallbackSeed, paste);
    code := ExitCode(outcome);
  }

  /**
   * `main --preview` saves at most the preview and exits with 0 exactly
   * when it saved it; without the flag, a run that exits with 0 saved the
   * preview and every frame.
   */
  lemma PreviewFlagStopsAfterPreview(argv: seq<string>, cfg: Config, world: World, accepts: string -> bool,
                                     fallbackSeed: int, paste: (Point, int, nat) -> Point)
    requires 0 <= fallbackSeed <= MaxFallbackSeed
    ensures var run := GenerateRun(cfg, world, accepts, PreviewRequested(argv), fallbackSeed, paste);
      (|argv| > 0 && argv[0] == "--preview" ==>
         |run.saves| <= 1 && (ExitCode(run.outcome) == 0 <==> |run.saves| == 1)) &&
      (!(|argv| > 0 && argv[0] == "--preview") && ExitCode(run.outcome) == 0 ==>
         |run.saves| == 1 + FrameCount(cfg))
  {
    if !PreviewRequested(argv) && ExitCode(GenerateRun(cfg, world, accepts, false, fallbackSeed, paste).outcome) == 0 {
      CompletedRunSavesEveryFrame(cfg, world, accepts, fallbackSeed, paste);
    }
  }

  /** `main` never exits with status 2: a missing input image exits with 3. */
  lemma MissingInputExitsWithThree(argv: seq<string>, cfg: Config, world: World, accepts: string -> bool,
                                   fallbackSeed: int, paste: (Point, int, nat) -> Point)
    requires 0 <= fallbackSeed <= MaxFallbackSeed
    ensures var code := ExitCode(GenerateRun(cfg, world, accepts, PreviewRequested(argv), fallbackSeed, paste).outcome);
      code != 2 && (!world.source.present ==> code == 3)
  {
    NoRunRaisesConfigError(cfg, world, accepts, PreviewRequested(argv), fallbackSeed, paste);
  }
}
