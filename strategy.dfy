/**
  The GIF conversion strategy: the trim window of a clip and the single
  ffmpeg command that turns it into a GIF through a generated palette.

  `str()` of a float (the trim times on the command line) is the parameter
  `formatFloat`; `str()` of a path joins its components with "/".
 */
module Strategy {
  import opened Text
  import opened Numbers
  import Files

  /** `ConversionParams`. */
  datatype ConversionParams = ConversionParams(
    inputPath: Files.Path,
    outputPath: Files.Path,
    scale: string,
    fps: int,
    startTimeSec: real,
    endTimeSec: real)

  /** `clip_duration`: the length of the trim window, but never below 0.01 s. */
  function ClipDuration(p: ConversionParams): (r: real)
    ensures r >= 0.01 && r >= p.endTimeSec - p.startTimeSec
    ensures r == 0.01 || r == p.endTimeSec - p.startTimeSec
  {
    if 0.01 >= p.endTimeSec - p.startTimeSec then 0.01 else p.endTimeSec - p.startTimeSec
  }

  lemma ClipDurationExamples(input: Files.Path, output: Files.Path, scale: string, fps: int)
    ensures ClipDuration(ConversionParams(input, output, scale, fps, 2.0, 5.0)) == 3.0
    ensures ClipDuration(ConversionParams(input, output, scale, fps, 0.0, 0.0)) == 0.01
  {
  }

  /** `str()` of a path. */
  function Render(p: Files.Path): string {
    Join(p, "/")
  }

  /** The scale value that keeps the source size. */
  const Original: string := "original"

  /** The last filter: split the stream, generate a palette from one copy and apply it to the other. */
  const PaletteChain: string := "split[s0][s1];[s0]palettegen[p];[s1][p]paletteuse"

  /** No character of the palette chain is a comma or a `c`. */
  lemma PaletteChainChars()
    ensures ',' !in PaletteChain && 'c' !in PaletteChain
  {
    var a, b, c := "split[s0][s1];", "[s0]palettegen[p];", "[s1][p]paletteuse";
    PaletteChainParts();
    SplitPartChars();
    PalettegenPartChars();
    PaletteusePartChars();
    NotInConcat(a, b, c, ',');
    NotInConcat(a, b, c, 'c');
  }

  /** The chain is three filter statements: split the stream, generate the palette, use it. */
  lemma PaletteChainParts()
    ensures PaletteChain == "split[s0][s1];" + "[s0]palettegen[p];" + "[s1][p]paletteuse"
  {
  }

  lemma SplitPartChars()
    ensures ',' !in "split[s0][s1];" && 'c' !in "split[s0][s1];"
  {
  }

  lemma PalettegenPartChars()
    ensures ',' !in "[s0]palettegen[p];" && 'c' !in "[s0]palettegen[p];"
  {
  }

  lemma PaletteusePartChars()
    ensures ',' !in "[s1][p]paletteuse" && 'c' !in "[s1][p]paletteuse"
  {
  }

  lemma NotInConcat(a: string, b: string, c: string, x: char)
    requires x !in a && x !in b && x !in c
    ensures x !in a + b + c
  {
  }

  function FpsFilter(fps: int): string {
    "fps=" + IntToString(fps)
  }

  function ScaleFilter(scale: string): string {
    "scale=" + scale + ":flags=lanczos"
  }

  /** The GIF strategy has no configuration of its own. */
  datatype GifConversionStrategy = GifConversionStrategy {

    /** The filters of `-vf`, in order: frame rate, the scale unless it is "original", the palette chain. */
    function Filters(p: ConversionParams): (fs: seq<string>)
      ensures |fs| == if p.scale == Original then 2 else 3
      ensures fs[0] == FpsFilter(p.fps) && fs[|fs| - 1] == PaletteChain
      ensures p.scale != Original ==> fs[1] == ScaleFilter(p.scale)
    {
      [FpsFilter(p.fps)] + (if p.scale != Original then [ScaleFilter(p.scale)] else []) + [PaletteChain]
    }

    /** The `-vf` argument: the filters joined by commas, so it starts with the frame rate and ends with the palette chain. */
    function VideoFilter(p: ConversionParams): (vf: string)
      ensures StartsWith(vf, FpsFilter(p.fps) + ",")
      ensures EndsWith(vf, "," + PaletteChain)
    {
      JoinEnds(Filters(p), ",");
      Join(Filters(p), ",")
    }

    function OutputExtension(): string {
      ".gif"
    }

    function Description(): string {
      "GIF conversion"
    }

    /** `build_command`: thirteen arguments, the output path last. */
    function BuildCommand(p: ConversionParams, formatFloat: real -> string): (cmd: seq<string>)
      ensures |cmd| == 13
    {
      ["ffmpeg", "-y", "-ss", formatFloat(p.startTimeSec), "-i", Render(p.inputPath),
       "-to", formatFloat(p.endTimeSec), "-vf", VideoFilter(p), "-loop", "0", Render(p.outputPath)]
    }
  }

  /** The trim window, the input, the filter, endless looping and the output, each after its option. */
  lemma CommandLayout(s: GifConversionStrategy, p: ConversionParams, formatFloat: real -> string)
    ensures var cmd := s.BuildCommand(p, formatFloat);
      cmd[..3] == ["ffmpeg", "-y", "-ss"] && cmd[3] == formatFloat(p.startTimeSec)
      && cmd[4] == "-i" && cmd[5] == Render(p.inputPath)
      && cmd[6] == "-to" && cmd[7] == formatFloat(p.endTimeSec)
      && cmd[8] == "-vf" && cmd[9] == s.VideoFilter(p)
      && cmd[10] == "-loop" && cmd[11] == "0" && cmd[12] == Render(p.outputPath)
  {
  }

  /** With the scale "original" the filter has no `scale=` in it. */
  lemma OriginalHasNoScale(s: GifConversionStrategy, p: ConversionParams)
    requires p.scale == Original
    ensures !Contains(s.VideoFilter(p), "scale=")
  {
    var n := IntToString(p.fps);
    PaletteChainChars();
    assert s.Filters(p) == [FpsFilter(p.fps), PaletteChain];
    JoinTwo(FpsFilter(p.fps), PaletteChain, ",");
    assert s.VideoFilter(p) == "fps=" + n + "," + PaletteChain;
    assert 'c' !in n by {
      forall k | 0 <= k < |n| ensures n[k] != 'c' {
        assert k == 0 || IsDigit(n[k]);
      }
    }
    assert 'c' !in "fps=" && 'c' !in ",";
    assert 'c' in "scale=" by {
      assert "scale="[1] == 'c';
    }
    AbsentCharNotContained(s.VideoFilter(p), "scale=", 'c');
  }

  /** With any other scale the filter is frame rate, scale with Lanczos resampling, then the palette chain. */
  lemma ScaledFilterLayout(s: GifConversionStrategy, p: ConversionParams)
    requires p.scale != Original
    ensures s.VideoFilter(p)
         == "fps=" + IntToString(p.fps) + "," + "scale=" + p.scale + ":flags=lanczos" + "," + PaletteChain
  {
    var a, b := FpsFilter(p.fps), ScaleFilter(p.scale);
    assert s.Filters(p) == [a, b, PaletteChain];
    JoinThree(a, b, PaletteChain, ",");
    assert a + "," + b == "fps=" + IntToString(p.fps) + "," + "scale=" + p.scale + ":flags=lanczos";
  }

  /**
    A scale without a comma cannot add a filter: splitting `-vf` at its
    commas gives back exactly the intended filters.
   */
  lemma FilterSplitsIntoFilters(s: GifConversionStrategy, p: ConversionParams)
    requires ',' !in p.scale
    ensures SplitOn(s.VideoFilter(p), ',') == s.Filters(p)
  {
    var fs := s.Filters(p);
    PaletteChainChars();
    var n := IntToString(p.fps);
    assert ',' !in FpsFilter(p.fps) by {
      assert FpsFilter(p.fps) == "fps=" + n;
      assert ',' !in "fps=";
      forall k | 0 <= k < |n| ensures n[k] != ',' {
        assert k == 0 || IsDigit(n[k]);
      }
    }
    if p.scale != Original {
      assert ',' !in ScaleFilter(p.scale) by {
        assert ',' !in "scale=" && ',' !in ":flags=lanczos";
      }
    }
    SplitJoin(fs, ',');
  }

  /** The strategy writes `.gif` files and calls itself "GIF conversion". */
  lemma StrategyDeclarations(s: GifConversionStrategy)
    ensures s.OutputExtension() == ".gif" && s.Description() == "GIF conversion"
  {
  }

  /** `.gif` is a suffix `pathlib` recognises, so the output name of `x.mp4` is `x.gif`. */
  lemma GifExtensionIsSuffix(s: GifConversionStrategy, name: string)
    requires name != [] && name != "."
    ensures Files.Suffix(Files.WithSuffix(name, s.OutputExtension())) == ".gif"
    ensures Files.Stem(Files.WithSuffix(name, s.OutputExtension())) == Files.Stem(name)
  {
    assert ".gif"[1..] == "gif";
    Files.ReplacedSuffix(name, ".gif");
  }
}
