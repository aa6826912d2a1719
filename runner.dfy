/**
  The conversion runner: one pass through the strategy's command for short
  clips, and for long ones a palette pass at one frame per second followed by
  a conversion pass that applies that palette.

  `str()` of a float is the parameter `formatFloat`; the threshold between
  the two plans is the configured segment length (30 s unless configured).
 */
module Runner {
  import opened Wrappers
  import opened Text
  import opened Numbers
  import Files
  import opened Strategy
  import opened Commands

  /** The default of the longest clip converted in a single pass, in seconds. */
  const DefaultSegmentMaxDuration: real := 30.0

  const PaletteSuffix: string := ".palette.png"

  /** `output_path.with_suffix(".palette.png")`; `None` where that raises (a path without a name). */
  function PalettePath(output: Files.Path): (r: Option<Files.Path>)
    ensures r.Some? <==> output != []
    ensures r.Some? ==> |r.value| == |output| && Files.Parent(r.value) == Files.Parent(output)
    ensures r.Some? ==> r.value[|output| - 1] == Files.WithSuffix(output[|output| - 1], PaletteSuffix)
  {
    if output == [] then None
    else Some(Files.Parent(output) + [Files.WithSuffix(output[|output| - 1], PaletteSuffix)])
  }

  /** The palette never overwrites the GIF: a name never has `.palette.png` as its suffix. */
  lemma PaletteIsNotOutput(output: Files.Path)
    requires output != []
    ensures PalettePath(output).value != output
  {
    var name := output[|output| - 1];
    PaletteNameDiffers(name);
    assert PalettePath(output).value[|output| - 1] != name;
  }

  /** Giving a name the suffix `.palette.png` changes it. */
  lemma PaletteNameDiffers(name: string)
    ensures Files.WithSuffix(name, PaletteSuffix) != name
  {
    assert '.' in PaletteSuffix[1..] by {
      assert PaletteSuffix[1..][7] == '.';
    }
    if name != "." {
      var stem := Files.Stem(name);
      assert Files.Suffix(name) != PaletteSuffix;
      assert stem + Files.Suffix(name) == name;
      assert (stem + PaletteSuffix)[|stem|..] == PaletteSuffix;
      assert name[|stem|..] == Files.Suffix(name);
    }
  }

  /** The first pass: palette generation from one frame per second of the trim window. */
  function PaletteCommand(p: ConversionParams, palette: Files.Path, formatFloat: real -> string): (cmd: seq<string>)
    ensures |cmd| == 11 && cmd[|cmd| - 1] == Render(palette)
  {
    ["ffmpeg", "-y", "-ss", formatFloat(p.startTimeSec), "-i", Render(p.inputPath),
     "-to", formatFloat(p.endTimeSec), "-vf", "fps=1,palettegen", Render(palette)]
  }

  /** The filters of the second pass: frame rate, the scale unless it is "original", then the external palette. */
  function ConvertFilters(p: ConversionParams): (fs: seq<string>)
    ensures |fs| == if p.scale == Original then 2 else 3
    ensures fs[0] == FpsFilter(p.fps) && fs[|fs| - 1] == "paletteuse"
    ensures p.scale != Original ==> fs[1] == ScaleFilter(p.scale)
  {
    [FpsFilter(p.fps)] + (if p.scale != Original then [ScaleFilter(p.scale)] else []) + ["paletteuse"]
  }

  /** The second pass: the clip and the palette as inputs, the GIF as output. */
  function ConvertCommand(p: ConversionParams, palette: Files.Path, formatFloat: real -> string): (cmd: seq<string>)
    ensures |cmd| == 15 && cmd[|cmd| - 1] == Render(p.outputPath)
  {
    ["ffmpeg", "-y", "-ss", formatFloat(p.startTimeSec), "-i", Render(p.inputPath),
     "-i", Render(palette), "-to", formatFloat(p.endTimeSec), "-lavfi", Join(ConvertFilters(p), ","),
     "-loop", "0", Render(p.outputPath)]
  }

  /**
    The palette pass: the trim window and the input, each after its option,
    the filter `fps=1,palettegen` after `-vf`, and the palette file last.
   */
  lemma PaletteCommandLayout(p: ConversionParams, palette: Files.Path, formatFloat: real -> string)
    ensures var cmd := PaletteCommand(p, palette, formatFloat);
      cmd[..3] == ["ffmpeg", "-y", "-ss"] && cmd[3] == formatFloat(p.startTimeSec)
      && cmd[4] == "-i" && cmd[5] == Render(p.inputPath)
      && cmd[6] == "-to" && cmd[7] == formatFloat(p.endTimeSec)
      && cmd[8] == "-vf" && cmd[9] == "fps=1,palettegen" && cmd[10] == Render(palette)
  {
  }

  /**
    The conversion pass: the trim start, the clip and the palette as the two
    inputs, the trim end, the joined second-pass filters after `-lavfi`,
    endless looping and the GIF last.
   */
  lemma ConvertCommandLayout(p: ConversionParams, palette: Files.Path, formatFloat: real -> string)
    ensures var cmd := ConvertCommand(p, palette, formatFloat);
      cmd[..3] == ["ffmpeg", "-y", "-ss"] && cmd[3] == formatFloat(p.startTimeSec)
      && cmd[4] == "-i" && cmd[5] == Render(p.inputPath)
      && cmd[6] == "-i" && cmd[7] == Render(palette)
      && cmd[8] == "-to" && cmd[9] == formatFloat(p.endTimeSec)
      && cmd[10] == "-lavfi" && cmd[11] == Join(ConvertFilters(p), ",")
      && cmd[12] == "-loop" && cmd[13] == "0" && cmd[14] == Render(p.outputPath)
  {
  }

  /** With a scale other than "original" the second-pass filter is frame rate, Lanczos scale, then `paletteuse`. */
  lemma ScaledConvertFilter(p: ConversionParams)
    requires p.scale != Original
    ensures Join(ConvertFilters(p), ",")
         == "fps=" + IntToString(p.fps) + "," + "scale=" + p.scale + ":flags=lanczos" + "," + "paletteuse"
  {
    JoinThree(FpsFilter(p.fps), ScaleFilter(p.scale), "paletteuse", ",");
  }

  /** With the scale "original" the second-pass filter is the frame rate, then `paletteuse`. */
  lemma OriginalConvertFilter(p: ConversionParams)
    requires p.scale == Original
    ensures Join(ConvertFilters(p), ",") == "fps=" + IntToString(p.fps) + "," + "paletteuse"
  {
    JoinTwo(FpsFilter(p.fps), "paletteuse", ",");
  }

  /** The file the first pass writes is the second input of the second pass, and both read the same trim window. */
  lemma PaletteFeedsConversion(p: ConversionParams, palette: Files.Path, formatFloat: real -> string)
    ensures var first, second := PaletteCommand(p, palette, formatFloat), ConvertCommand(p, palette, formatFloat);
      second[6] == "-i" && second[7] == first[10]
      && second[3] == first[3] && second[9] == first[7] && second[5] == first[5]
  {
  }

  /** The second pass's filter is the single-pass filter with the palette chain replaced by `paletteuse`. */
  lemma ConvertFilterMatchesStrategy(s: GifConversionStrategy, p: ConversionParams)
    ensures ConvertFilters(p)[..|ConvertFilters(p)| - 1] == s.Filters(p)[..|s.Filters(p)| - 1]
  {
  }

  /**
    What `run_conversion` does, as a value: the outcome, the progress reports
    passed to the callback, and the palette path it deletes afterwards, if any.
   */
  function Converted(s: GifConversionStrategy, p: ConversionParams, segmentMax: real, formatFloat: real -> string,
                     hasCallback: bool, tool: Tool): (r: (RunOutcome, seq<ProgressInfo>, Option<Files.Path>))
    ensures r.2.Some? ==> r.2 == PalettePath(p.outputPath) && r.0.Finished?
    ensures r.0.Raised? ==> r.1 == []
  {
    var clip := ClipDuration(p);
    if clip <= segmentMax then
      var (outcome, reports) := Executed(tool(s.BuildCommand(p, formatFloat)), Some(clip), hasCallback);
      (outcome, reports, None)
    else match PalettePath(p.outputPath)
      case None => (Raised, [], None)
      case Some(palette) =>
        var (first, _) := Executed(tool(PaletteCommand(p, palette, formatFloat)), None, false);
        if first.Raised? then (Raised, [], None)
        else if !first.success then (Finished(false), [], None)
        else
          var (second, reports) := Executed(tool(ConvertCommand(p, palette, formatFloat)), Some(clip), hasCallback);
          if second.Raised? then (Raised, [], None) else (second, reports, Some(palette))
  }

  /** A clip no longer than the segment limit runs exactly the strategy's one command, with progress. */
  lemma ShortClipSinglePass(s: GifConversionStrategy, p: ConversionParams, segmentMax: real,
                            formatFloat: real -> string, hasCallback: bool, tool: Tool)
    requires ClipDuration(p) <= segmentMax
    ensures var r := Converted(s, p, segmentMax, formatFloat, hasCallback, tool);
      (r.0, r.1) == Executed(tool(s.BuildCommand(p, formatFloat)), Some(ClipDuration(p)), hasCallback)
      && r.2.None?
  {
  }

  /**
    A long clip succeeds exactly when both passes exit with code 0; the
    palette pass reports no progress, so every report comes from the second
    pass; and the palette is deleted exactly when the second pass has run to
    its end.
   */
  lemma LongClipTwoPasses(s: GifConversionStrategy, p: ConversionParams, segmentMax: real,
                          formatFloat: real -> string, hasCallback: bool, tool: Tool)
    requires ClipDuration(p) > segmentMax && p.outputPath != []
    ensures var r := Converted(s, p, segmentMax, formatFloat, hasCallback, tool);
      var palette := PalettePath(p.outputPath).value;
      var first, second := tool(PaletteCommand(p, palette, formatFloat)), tool(ConvertCommand(p, palette, formatFloat));
      (r.0 == Finished(true) <==> first.Exited? && first.exitCode == 0 && second.Exited? && second.exitCode == 0)
      && (r.2.Some? <==> first.Exited? && first.exitCode == 0 && second.Exited?)
      && (r.2.Some? ==> r.2.value == palette)
      && r.1 == (if r.2.Some? then Executed(second, Some(ClipDuration(p)), hasCallback).1 else [])
  {
  }

  /** `FFmpegRunner` over the GIF strategy. */
  class FFmpegRunner {
    const strategy: GifConversionStrategy
    const commandRunner: CommandRunner
    const segmentMaxDuration: real
    const fs: Files.FileSystem
    const formatFloat: real -> string

    constructor (commandRunner: CommandRunner, fs: Files.FileSystem, segmentMaxDuration: real, formatFloat: real -> string)
      ensures this.commandRunner == commandRunner && this.fs == fs
      ensures this.segmentMaxDuration == segmentMaxDuration && this.formatFloat == formatFloat
    {
      strategy := GifConversionStrategy;
      this.commandRunner := commandRunner;
      this.fs := fs;
      this.segmentMaxDuration := segmentMaxDuration;
      this.formatFloat := formatFloat;
    }

    /**
      `run_conversion`: the result, the reports and the deleted palette are
      those of `Converted`; a gate slot is back in place afterwards.
     */
    method RunConversion(p: ConversionParams, hasCallback: bool, tool: Tool)
      returns (outcome: RunOutcome, reports: seq<ProgressInfo>)
      requires commandRunner.gate != null ==> commandRunner.gate.inUse < commandRunner.gate.capacity
      modifies commandRunner.gate, fs
      ensures var r := Converted(strategy, p, segmentMaxDuration, formatFloat, hasCallback, tool);
        outcome == r.0 && reports == r.1
        && fs.View() == (if r.2.Some? then Files.Unlinked(old(fs.View()), r.2.value).1 else old(fs.View()))
      ensures commandRunner.gate != null ==> commandRunner.gate.inUse == old(commandRunner.gate.inUse)
    {
      var clip := ClipDuration(p);
      if clip <= segmentMaxDuration {
        var cmd := strategy.BuildCommand(p, formatFloat);
        ghost var slots;
        outcome, reports, slots := commandRunner.RunCommand(cmd, Some(clip), hasCallback, tool);
        return;
      }
      var palette := PalettePath(p.outputPath);
      if palette.None? {
        return Raised, [];
      }
      var first, firstReports, slots := commandRunner.RunCommand(PaletteCommand(p, palette.value, formatFloat), None, false, tool);
      if first.Raised? {
        return Raised, [];
      }
      if !first.success {
        return Finished(false), [];
      }
      var second, secondReports, slots2 := commandRunner.RunCommand(ConvertCommand(p, palette.value, formatFloat), Some(clip), hasCallback, tool);
      if second.Raised? {
        return Raised, [];
      }
      var _ := fs.Unlink(palette.value);
      outcome, reports := second, secondReports;
    }
  }
}
