# image-drift-generator: frame bookkeeping, in Dafny

`generate_frames.py` renders a PNG sequence in which a still image drifts over a
fixed canvas. It first writes a preview over a checkerboard. `encode_webm.py`
then turns that sequence into a VP9 WebM with alpha, using ffmpeg. This project
models the integer and string logic around the two scripts and proves what it
promises. The pixel work and the floating-point motion are not modelled.

- **Frame names** (`frame_naming.dfy`, `decimal.dfy`). The pad width is
  `max(4, len(str(TOTAL_FRAMES)))`. The template `<BASENAME>_{:0<pad>d}.png`
  goes through `str.format`, so the base name is read as format text:
  `{{` and `}}` become one brace each, and any other brace makes the call
  raise. Frame `idx` is therefore named `<formatted base>_<idx zero-padded>.png`,
  or has no name at all. Within a run, every name has exactly `pad` digits that
  read back as its number. All names have the same length, they sort in frame
  order under Python's string ordering, and no two are equal.
- **Base placement** (`placement.dfy`). Centre mode uses Python floor division,
  which also rounds negative margins toward minus infinity. Any other mode
  returns the explicit coordinates.
- **Preview checkerboard** (`preview_grid.dfy`). The nested loop fills a 2-D
  array with one colour per 16-pixel tile. The grid covers the canvas with less
  than one tile of overhang. Tiles that share an edge differ in colour.
- **Seed choice** (`seeds.dfy`). A seed string that Python's `int()` accepts is
  used as read. Otherwise the seed is a fallback in `[0, 2^30 - 1]`, passed in.
  The `int()` reader is proved to read back every `str(n)`.
- **The run** (`generation.dfy`). `generate_frames` is a method over a `Disk`
  object. The `Disk` logs each successful save as its path and paste point. The
  frame loop is a `while` loop proved against a recursive specification of its
  passes. The whole method is proved equal to a specification function,
  `GenerateRun`, which in turn carries lemmas:
  - A setup failure saves nothing and raises `GenerationError`. Setup fails when
    the directories cannot be made, the input is missing or does not decode, a
    target width meets a zero source width, or the resize size is not positive.
  - The preview comes first. With `--preview`, it is the only save, and the run
    ends before the seed is chosen.
  - The frames follow the preview, numbered 1, 2, … with no gap. They are
    sorted and go to distinct files. There are none when `TOTAL_FRAMES <= 0`.
  - A failed frame is the frame right after the last one saved. It failed
    because its name could not be formatted or because its save failed.
  - Take a base name that `str.format` refuses and a positive `TOTAL_FRAMES`.
    When the preview is saved, the run fails on the first frame and `main`
    exits with 1. With `TOTAL_FRAMES <= 0` there is no frame to name, and the
    run completes.
  - `main` turns the outcome into an exit status.
- **Encoder** (`encoder.dfy`). The script builds the pattern
  `<BASENAME>_%0<pad>d.png` and the output path `<FINAL_DIR>/<BASENAME>.webm`.
  When `<BASENAME>.webm` is an absolute path, `os.path.join` drops `FINAL_DIR`.
  Read as an image-sequence pattern, it names frame `idx` exactly as the frame
  writer does. That holds given the same `BASENAME` and `TOTAL_FRAMES` in both
  scripts, and a base name with no `%` and no brace. The reading treats
  `%<digits>%` (including `%%`) as `%` and `%<digits>d` as the zero-padded
  number. The ffmpeg
  argument vector reads, under ffmpeg's option convention, as the intended
  input, codec settings and single output. A nonzero ffmpeg status raises an
  error, and the status can be read back from its message.

Some facts about the code that the model keeps:

- The pad is at least 4 digits. 300 frames give `base_0001.png` … `base_0300.png`.
- Frames are numbered from 1.
- The only configuration check is the input file's existence.
- `main` maps `ConfigError` to 2. But `generate_frames` re-raises every setup
  failure, including the missing input's `ConfigError`, as `GenerationError`. So
  `main` never exits with 2, and a missing input exits with 3
  (`Generation.MissingInputExitsWithThree`).

## Model

| member | source | states |
|---|---|---|
| FrameNaming.ZeroPadWidth | src/generate_frames.py:103-104 | the pad is at least 4 and at least the length of `str(total)`, and equals one of the two (their maximum) |
| FrameNaming.PadFitsEveryIndex | src/generate_frames.py:103-104 | every frame number `1..total` has no more digits than the pad, so no name overflows it |
| FrameNaming.FormatPlainBase | src/generate_frames.py:177-192 | `str.format` leaves a base name without braces unchanged |
| FrameNaming.FormatEscapedBase | src/generate_frames.py:177-192 | a base name with every brace doubled formats back to the original text, so every text is reachable as a formatted base |
| FrameNaming.FormatBaseExamples | src/generate_frames.py:177-192 | `a{{b` formats to `a{b`, while a lone `}` and an empty field `{}` make `format` raise |
| FrameNaming.FrameName | src/generate_frames.py:176-192 | a frame has a name exactly when `format` accepts the base name, and that name is no longer than the base, `_`, the padded number and `.png` |
| FrameNaming.PlainBaseNamesVerbatim | src/generate_frames.py:176-192 | a base name without braces names a frame `<base>_<padded idx>.png` verbatim |
| FrameNaming.BracedBaseNameDiffers | src/generate_frames.py:176-192 | the base name `a{{b` names frame 1 of a four-digit run `a{b_0001.png`, not `a{{b_0001.png` |
| FrameNaming.PercentBaseNameVerbatim | src/generate_frames.py:176-192 | the base name `a%b` names frame 1 `a%b_0001.png` |
| FrameNaming.FrameFileNameShape | src/generate_frames.py:176-192 | frame `idx` of a run has exactly `pad` digits between `<base>_` and `.png`, and they read back as `idx`, so all names of a run have the same length |
| FrameNaming.FrameFileNameOrder | src/generate_frames.py:176-192 | a lower frame number gives a name that is lexicographically smaller |
| FrameNaming.FrameFileNameInjective | src/generate_frames.py:176-192 | distinct frame numbers give distinct names |
| Decimal.ZeroPadOrder | src/generate_frames.py:177 | zero-padded numbers that fit the width sort as strings in numeric order |
| Decimal.ValueOfZeroPad | src/generate_frames.py:177 | the `{:0{pad}d}` text of `n` reads back as `n`, for any width |
| Decimal.NatToStringMonotone | src/generate_frames.py:104 | a larger number never has fewer decimal digits |
| Decimal.ParseIntOfIntToString | src/generate_frames.py:129 | `int(str(n)) == n` for every integer `n` that `str` can write (at most 4300 digits), negative ones included |
| Decimal.ParseIntRefusesLongNumeral | src/generate_frames.py:129 | `int()` refuses a numeral of more than 4300 digits, the default `sys.get_int_max_str_digits()` |
| Paths.JoinPath | src/generate_frames.py:193 | the joined path ends with the name, and starts with the directory when the name is relative |
| Paths.JoinPathOrder | src/generate_frames.py:193 | joining two names of the same kind onto one directory keeps their order |
| Paths.JoinPathInjective | src/generate_frames.py:193 | joining two names of the same kind onto one directory keeps them distinct |
| Placement.ComputeBasePosition | src/generate_frames.py:95-101 | in mode exactly `center`, the position minus the offset is the floor of half the margin; in any other mode, it is the explicit `(BASE_X, BASE_Y)` |
| Placement.CenteredMargins | src/generate_frames.py:96-99 | centred without offsets, the far margin equals the near one or is one pixel wider, even when the image is larger than the canvas |
| Placement.CenterOffsetShifts | src/generate_frames.py:97-98 | the centre offsets shift the centred position by exactly their amount |
| Placement.TestedPlacements | tests/test_generation.py:35-51 | the placements the repository's tests expect, `(80, 37)` and `(7, 9)`, and an oversized image placed at `-26` |
| PreviewGrid.TileCount | src/generate_frames.py:113-114 | `ceil(n / 16)` tiles cover `n > 0` pixels with less than one tile to spare; there are none for `n <= 0` |
| PreviewGrid.AdjacentTilesDiffer | src/generate_frames.py:117 | tiles that share an edge have different colours |
| PreviewGrid.BuildTiles | src/generate_frames.py:108-118 | the grid has `ceil(h/16)` rows and `ceil(w/16)` columns, and tile `(x, y)` is light exactly when `x + y` is even |
| Seeds.ResolveSeed | src/generate_frames.py:124-133 | a missing or empty seed gives the fallback; a seed that `int()` reads gives its value; an unreadable seed, one over 4300 digits included, gives the fallback |
| Seeds.ExplicitSeedUsedVerbatim | src/generate_frames.py:128-129 | a seed written as an integer of at most 4300 digits is used as that integer, whatever the fallback draw |
| Seeds.OverlongSeedFallsBack | src/generate_frames.py:128-131 | a seed numeral of more than 4300 digits makes `int()` raise, so the random fallback is used |
| Seeds.SeedIsParsedOrInRange | src/generate_frames.py:124-133 | the seed is either the value of the seed string or lies in `[0, 2^30 - 1]` |
| Seeds.TestedSeed | tests/test_offsets.py:30-33 | the seed string `"123"` yields 123 whatever the fallback draw, as the repository's test expects |
| Generation.LoadAndScaleImage | src/generate_frames.py:79-93 | a missing input is a `ConfigError`, and every other failure is a raised error. An input that does not decode fails. With a truthy target width, the load succeeds exactly when the source width is nonzero and the target size is positive, and the width is then exactly the target. Otherwise it succeeds exactly when the `SCALE` size is positive, and that size is used |
| Generation.FramePath | src/generate_frames.py:176-193 | every frame of a run has a path exactly when `format` accepts the base name |
| Generation.LoopSavesInOrder | src/generate_frames.py:180-194 | from pass `i` on, the loop saves frames `i+1, i+2, …` in order, each accepted and at its drifted paste point. It completes exactly when it saved all of them, and otherwise the frame after the last saved one could not be named or saved |
| Generation.Disk.Save | src/generate_frames.py:194 | a save succeeds exactly when the file system accepts the path; a successful save is appended to the log, and a failed one leaves the log unchanged |
| Generation.SaveFrames | src/generate_frames.py:176-196 | the `while` loop reports completion and logs the saves exactly as the specification of the loop's passes says |
| Generation.RunFrames | src/generate_frames.py:176-198 | the frame phase's outcome (`OtherError` when a pass raised) and its saves are those of its specification |
| Generation.BuildPreview | src/generate_frames.py:106-120 | the preview is saved to `<OUTPUT_DIR>/<BASENAME>_preview.png` at the base position exactly when the file system accepts that path |
| Generation.RunAfterSetup | src/generate_frames.py:160-198 | preview, preview-only stop, seed choice and frame loop give the outcome and saves of the specification `AfterSetup` |
| Generation.GenerateFrames | src/generate_frames.py:152-198 | the method's outcome and saves are those of the specification `GenerateRun`, appended to what was already saved |
| Generation.SetupFailureSavesNothing | src/generate_frames.py:153-158 | every setup failure raises `GenerationError` and saves nothing: directories that cannot be made, a missing or undecodable input, a target width over a zero source width, or a resize size that is not positive |
| Generation.PreviewSavedFirst | src/generate_frames.py:159-167 | the first save of any run is the preview at `<OUTPUT_DIR>/<BASENAME>_preview.png`, placed at the base position |
| Generation.PreviewOnlyRun | src/generate_frames.py:168-173 | with `preview_only`, at most the preview is saved, and the run is the same whatever the fallback seed and drift |
| Generation.AfterSetupSavesFrames | src/generate_frames.py:176-198 | for any frame path function, the saves past the preview are frames `1, 2, …` at their own paths, never more than `TOTAL_FRAMES` of them. A completed full run saved all of them, and a failed loop stopped at the first frame whose path is missing or refused |
| Generation.FramesSavedInSequence | src/generate_frames.py:176-194 | after the preview, save `j` is frame `j`, with no gap, and there are never more than `TOTAL_FRAMES` of them |
| Generation.CompletedRunSavesEveryFrame | src/generate_frames.py:176-198 | a completed full run saves the preview and then frames `1..TOTAL_FRAMES`, or only the preview when `TOTAL_FRAMES <= 0` |
| Generation.FailedFrameIsNext | src/generate_frames.py:189-194 | when the frame loop fails, frames `1..n-1` were saved, and frame `n` either has no name or its save failed |
| Generation.UnformattableBaseFailsAfterPreview | src/generate_frames.py:176-194 | with a base name that `format` refuses and a positive frame count, a full run never completes. It saves at most the preview, and it exits with 1 exactly when it saved the preview |
| Generation.NoRunRaisesConfigError | src/generate_frames.py:153-158 | no run raises `ConfigError`, because setup wraps it in `GenerationError` |
| Generation.FramePathOrder | src/generate_frames.py:176-193 | the frame files of a run sort by path in frame order |
| Generation.FramePathsDistinct | src/generate_frames.py:176-193 | distinct frames of a run go to distinct files |
| Generation.SavedFramesSorted | src/generate_frames.py:176-194 | the frames a run saved are in strictly increasing path order |
| Generation.ExitCode | src/generate_frames.py:206-216 | the status is 0 on success, 2 for `ConfigError`, 3 for `GenerationError` and 1 for anything else, in both directions |
| Generation.RunMain | src/generate_frames.py:201-216 | `main` saves what the run saves and exits with the status of its outcome |
| Generation.PreviewFlagStopsAfterPreview | src/generate_frames.py:202-216 | `main --preview` saves at most the preview and exits with 0 exactly when it saved it. Without the flag, an exit with 0 means the preview and every frame were saved |
| Generation.MissingInputExitsWithThree | src/generate_frames.py:206-216 | `main` never exits with 2, and a missing input exits with 3 |
| Encoder.ZeroPadWidth | src/encode_webm.py:28-29 | the encoder's pad is at least 4 and at least the length of `str(total)` |
| Encoder.PadWidthsAgree | src/encode_webm.py:28-29 | both scripts derive the same pad from the same `TOTAL_FRAMES` |
| Encoder.BuildPatternAndOut | src/encode_webm.py:31-35 | the pattern's length is that of the base name, the 8 fixed characters and the pad's digits. The output path ends with `<BASENAME>.webm`, and it starts with `FINAL_DIR` when that name is relative |
| Encoder.DirectiveExpansion | src/encode_webm.py:33 | the `%0<pad>d.png` tail reads frame `n` as `n` padded to `pad` digits, followed by `.png` |
| Encoder.PatternNamesFrames | src/encode_webm.py:31-33 | with a base name free of `%`, the pattern reads frame `idx` as the base name verbatim, the writer's pad and `.png` |
| Encoder.WriterAndEncoderAgree | src/encode_webm.py:31-33 | with a base name free of `%` and of braces, the pattern reads frame `idx` as exactly the name the frame writer saves it under |
| Encoder.BracedBaseMismatch | src/encode_webm.py:33 | with the base name `a{{b`, the writer saves frame 1 as `a{b_0001.png`, but the pattern reads it as `a{{b_0001.png` |
| Encoder.PercentBaseUnreadable | src/encode_webm.py:33 | with the base name `a%b`, the writer saves frame 1 as `a%b_0001.png`, but the pattern holds the stray directive `%b` and reads no file |
| Encoder.ExpandEscaped | src/encode_webm.py:33 | a text with each `%` doubled reads back verbatim at the head of a pattern |
| Encoder.CorrectedPatternNamesFrames | src/encode_webm.py:31-33 | for every base name that `format` accepts, the corrected pattern reads frame `idx` as exactly the writer's name for it |
| Encoder.FfmpegCommand | src/encode_webm.py:41-49 | the command has 13 arguments: it starts with `FFMPEG_BIN` and ends with the output path |
| Encoder.CommandReadsAsIntended | src/encode_webm.py:41-49 | under ffmpeg's option convention, the arguments read as overwrite, frame rate `str(FPS)`, the input pattern, `libvpx-vp9`, `yuva420p`, no alt-ref, and one output |
| Encoder.CommandInput | src/encode_webm.py:41-49 | the input ffmpeg reads from the command is the pattern passed in, unless the output path looks like an option |
| Encoder.EncoderInputIsFrameSequence | src/encode_webm.py:40-49 | with a base name free of `%` and of braces, the input ffmpeg reads from the built command names frame `idx` exactly as the frame writer does |
| Encoder.CorrectedCommandReadsFrames | src/encode_webm.py:40-49 | with the corrected pattern, the command's input names frame `idx` as the frame writer does, for every base name that `format` accepts |
| Encoder.FinishEncode | src/encode_webm.py:54-56 | the encoding finishes exactly when the exit status is 0 |
| Encoder.FailureCarriesCode | src/encode_webm.py:54-55 | the error for a nonzero status carries that status, which `int()` reads back from the message (any status `str` can write) |

## Left out

- Pixels and image I/O are not modelled. This covers decoding,
  `convert("RGBA")`, the LANCZOS resize, alpha `paste`, the rectangle pixel
  extents and the PNG encoding. Whether an input decodes is a flag of the
  `SourceImage`. A save is an event carrying its path and paste point, and
  whether it succeeds is a parameter of the `Disk` (`accepts`).
- Canvas creation is assumed to succeed. `Image.new` would reject a negative
  size.
- Floating point is not modelled. This covers the perlin and sine offsets, the
  frame time, `int(round(base + d))`, the rounded scaled sizes and the default
  `int(DURATION_SECONDS * FPS)`. Each frame's paste point is an uninterpreted
  `paste(base, seed, i)`. The rounded sizes are fields of `SourceImage`.
- Generation.LoadAndScaleImage: the heights and the `SCALE` width come from
  float rounding and are taken as given. Only the target width is exact.
- `random.randint` is not modelled. The fallback seed is a parameter
  constrained to `[0, 2^30 - 1]`.
- Configuration reading is not modelled. This covers `env()`, the
  `int()`/`float()` parsing at import, and the defaults. The configuration is an
  immutable `Config` record. `INPUT_IMAGE` appears only as the flag saying
  whether the file exists.
- `ensure_dirs` is modelled only as a flag saying whether it succeeded.
- Progress logging is not modelled.
- `main`'s fallback from `argv` to `sys.argv` is not modelled. The argument
  vector is a parameter.
- Decimal.ParseInt: the model covers ASCII whitespace (space, 0x09–0x0D and
  0x1C–0x1F), the sign, ASCII digits, single underscores, and the default
  limit of 4300 digits. It leaves out the non-ASCII Unicode whitespace and
  digits that Python's `int()` also accepts, and a limit changed through
  `sys.set_int_max_str_digits` or `PYTHONINTMAXSTRDIGITS`.
- Decimal.IntToString writes any integer, but Python's `str()` raises beyond
  4300 digits. The numbers written here are these:
  - `TOTAL_FRAMES`;
  - the frame numbers, each at most `TOTAL_FRAMES`;
  - the pad width;
  - `FPS`;
  - an exit status.

  `TOTAL_FRAMES` and `FPS` came through `int()` at import, so they have at
  most 4300 digits, and `str()` never raises on any of these numbers.
- Decimal.ParseIntOfIntToString: holds only for integers that `str()` can
  write, at most 4300 digits.
- Seeds.ExplicitSeedUsedVerbatim: holds only for seeds of at most 4300
  digits. Longer ones fall back (Seeds.OverlongSeedFallsBack).
- Encoder.FailureCarriesCode: holds for exit statuses of at most 4300 digits.
  Any status a process returns fits.
- Motion is not modelled (see the floating-point line above). In the code, a
  `MOTION_MODE` other than `perlin`, in any letter case, selects the sine
  offsets, whose `dy` has a phase of 1.7 at time 0.
- FrameNaming.FormatBase reads only what decides the base name's fate:
  doubled braces, and any other brace, which makes the call raise. Fields
  that `format` would fill or reject with different messages all become the
  same raised error.
- A failed frame save raises the file system's own exception, naming the path.
  The model raises `OtherError`, and `Generation.FailedFrameIsNext` identifies
  the frame.
- Encoder process handling is not modelled. This covers `subprocess.run`,
  `shutil.which`, the `os.path.isdir` check and the printed fallback command.
  Only the argument vector and the reaction to the exit status are modelled.
- The two scripts read `TOTAL_FRAMES` separately, and their defaults differ.
  The encoder uses `30*30` (`src/encode_webm.py:25`). The writer uses
  `int(DURATION_SECONDS * FPS)` (`src/generate_frames.py:43`). With
  `TOTAL_FRAMES` unset and 10000 or more frames written, the writer pads to 5
  digits while the encoder's pattern asks for 4. The model takes the
  encoder's `TOTAL_FRAMES` as a field of its own, and the agreement lemmas
  relate the two scripts only for equal values (Encoder.PadWidthsAgree).
- ffmpeg runs with `FRAMES_DIR` as its working directory. A relative
  `FINAL_DIR` output path therefore resolves inside `FRAMES_DIR`. Paths are not
  resolved against a working directory here.
- Encoder.ExpandPattern reads only `%<digits>%` (including `%%`) and
  `%<digits>d`. Any other `%` makes the pattern invalid. The demuxer's search
  for the first frame number, and its treatment of a pattern without a
  directive, are outside this model.
- `src/logging_config.py` and `src/errors.py` are not part of this model. The
  exception classes are the `ErrorKind` datatype.
- `tests/test_generation.py:84-90` expects an `EncoderError` that
  `src/encode_webm.py` neither defines nor raises. It raises `RuntimeError`, as
  modelled.

## Findings

| source | as written | input that shows it | evidently intended | confidence | as-written member | corrected member |
|---|---|---|---|---|---|---|
| src/encode_webm.py:33 | the pattern puts `BASENAME` in verbatim, but the frame writer's name passes it through `str.format` | `BASENAME = "a{{b"`, `TOTAL_FRAMES = 1`: the writer saves `a{b_0001.png`, and the encoder looks for `a{{b_0001.png` | the encoder reads the frames the writer saved | not executed; medium | Encoder.BracedBaseMismatch | Encoder.CorrectedPatternNamesFrames |
| src/encode_webm.py:33 | the pattern does not escape a `%` in `BASENAME` for the image-sequence reader | `BASENAME = "a%b"`, `TOTAL_FRAMES = 1`: the writer saves `a%b_0001.png`, and the pattern `a%b_%04d.png` is invalid | `%` in the base name is read as a literal `%` | not executed; medium | Encoder.PercentBaseUnreadable | Encoder.CorrectedPatternNamesFrames |

The corrected pattern, `Encoder.CorrectedPattern`, takes the base name as
`format` renders it and doubles each `%`. `Encoder.CorrectedCommandReadsFrames`
carries the correction through to the ffmpeg command.
