/**
  Running an external command: reading ffmpeg's progress lines, and the
  optional gate that bounds how many commands run at once.

  The process itself is the parameter `tool`: given the argument list it
  either fails to start (the original raises) or exits with a code after
  writing its standard-error lines, each paired with the wall-clock reading
  at which it was read. The clock reading taken before the start comes with
  the result too.
 */
module Commands {
  import opened Wrappers
  import opened Text
  import opened Numbers

  /** `ProgressInfo`. */
  datatype ProgressInfo = ProgressInfo(percent: real, estSecondsRemaining: Option<real>)

  /** `parse_ffmpeg_time`: exactly three colon-separated fields `H:M:S`, worth `H*3600 + M*60 + S`; `None` where the original raises. */
  function ParseFfmpegTime(s: string): (r: Option<real>)
    ensures |SplitOn(s, ':')| != 3 ==> r.None?
  {
    TimeOfFields(SplitOn(s, ':'))
  }

  /** The seconds denoted by the fields `H`, `M` and `S` of a time. */
  function TimeOfFields(fields: seq<string>): Option<real> {
    if |fields| != 3 then None
    else Seconds(ParseInt(fields[0]), ParseInt(fields[1]), ParseFloat(fields[2]))
  }

  /** Hours, minutes and seconds together, if all three parsed. */
  function Seconds(h: Option<int>, m: Option<int>, sec: Option<real>): (r: Option<real>)
    ensures r.Some? <==> h.Some? && m.Some? && sec.Some?
  {
    if h.Some? && m.Some? && sec.Some? then Some((h.value * 3600 + m.value * 60) as real + sec.value)
    else None
  }

  /** `HH:MM:SS.FF` written with digits reads back as its number of seconds. */
  lemma ParseTimeOfDigits(h: string, m: string, w: string, f: string)
    requires h != [] && m != [] && w != [] && AllDigits(h) && AllDigits(m) && AllDigits(w) && AllDigits(f)
    ensures ParseFfmpegTime(h + ":" + m + ":" + w + "." + f)
         == Seconds(Some(DigitsValue(h)), Some(DigitsValue(m)), Some(DigitsValue(w) as real + Fraction(f)))
  {
    var sec := w + "." + f;
    assert h + ":" + m + ":" + w + "." + f == h + ":" + m + ":" + sec;
    DigitsHaveNoColon(h);
    DigitsHaveNoColon(m);
    DecimalHasNoColon(w, f);
    TimeFields(h, m, sec);
    assert ParseFfmpegTime(h + ":" + m + ":" + sec) == TimeOfFields([h, m, sec]);
    DigitFieldsValue(h, m, w, f);
  }

  lemma DigitFieldsValue(h: string, m: string, w: string, f: string)
    requires h != [] && m != [] && w != [] && AllDigits(h) && AllDigits(m) && AllDigits(w) && AllDigits(f)
    ensures TimeOfFields([h, m, w + "." + f])
         == Seconds(Some(DigitsValue(h)), Some(DigitsValue(m)), Some(DigitsValue(w) as real + Fraction(f)))
  {
    ParseDigits(h);
    ParseDigits(m);
    DecimalRoundTrip(w, f);
  }

  lemma DigitsHaveNoColon(d: string)
    requires AllDigits(d)
    ensures ':' !in d
  {
    assert forall k | 0 <= k < |d| :: IsDigit(d[k]);
  }

  lemma DecimalHasNoColon(w: string, f: string)
    requires AllDigits(w) && AllDigits(f)
    ensures ':' !in w + "." + f
  {
    var sec := w + "." + f;
    assert forall k | 0 <= k < |sec| :: sec[k] == '.' || IsDigit(sec[k]);
  }

  /** Three colon-free fields joined by colons split back into themselves. */
  lemma TimeFields(h: string, m: string, sec: string)
    requires ':' !in h && ':' !in m && ':' !in sec
    ensures SplitOn(h + ":" + m + ":" + sec, ':') == [h, m, sec]
  {
    JoinThree(h, m, sec, ":");
    SplitJoin([h, m, sec], ':');
  }

  const TimeMarker: string := "time="

  /** The time token of a progress line: after the first `time=`, up to the next `time=`, its first word. */
  function TimeToken(line: string): (r: Option<string>)
    ensures r.Some? ==> Contains(line, TimeMarker) && r.value != [] && NoSpace(r.value)
  {
    match SecondField(line, TimeMarker)
    case None => None
    case Some(field) => FirstWord(field)
  }

  /**
    No proper tail of `time=` starts with `t`, so an occurrence of the marker
    cannot overlap the first one: after a marker-free prefix, the first
    marker is the one that follows it.
   */
  lemma MarkerFirstAt(pre: string, after: string)
    requires !Contains(pre, TimeMarker)
    ensures var line := pre + TimeMarker + after;
      OccursAt(line, TimeMarker, |pre|) && forall j: nat | j < |pre| :: !OccursAt(line, TimeMarker, j)
  {
    var line := pre + TimeMarker + after;
    var i := |pre|;
    assert line[i..i + 5] == TimeMarker;
    forall j: nat | j < i ensures !OccursAt(line, TimeMarker, j) {
      if j + 5 <= i {
        assert !OccursAt(pre, TimeMarker, j);
        assert line[j..j + 5] == pre[j..j + 5];
      } else {
        assert line[j..j + 5][i - j] == line[i] == 't';
        assert TimeMarker[i - j] != 't';
      }
    }
  }

  /** No marker starts inside a marker-free word followed by white space or the end. */
  lemma NoMarkerInWord(line: string, start: nat, tok: string)
    requires OccursAt(line, tok, start) && NoSpace(tok) && !Contains(tok, TimeMarker)
    requires start + |tok| == |line| || IsSpace(line[start + |tok|])
    ensures forall j: nat | start <= j < start + |tok| :: !OccursAt(line, TimeMarker, j)
  {
    forall j: nat | start <= j < start + |tok| ensures !OccursAt(line, TimeMarker, j) {
      if j + 5 <= start + |tok| {
        assert !OccursAt(tok, TimeMarker, j - start);
        assert line[start..start + |tok|] == tok;
        var here, inTok := line[j..j + 5], tok[j - start..j - start + 5];
        forall m | 0 <= m < 5 ensures here[m] == inTok[m] {
          assert line[start..start + |tok|][j - start + m] == line[j + m];
        }
        assert here == inTok;
      } else if j + 5 <= |line| {
        var e := start + |tok|;
        assert line[j..j + 5][e - j] == line[e];
        assert !IsSpace(TimeMarker[e - j]);
      }
    }
  }

  /**
    The token of a line is the word right after its first `time=`, ending at
    white space or at the end of the line.
   */
  lemma TimeTokenIs(pre: string, tok: string, rest: string)
    requires !Contains(pre, TimeMarker)
    requires tok != [] && NoSpace(tok) && !Contains(tok, TimeMarker)
    requires rest == [] || IsSpace(rest[0])
    ensures TimeToken(pre + TimeMarker + tok + rest) == Some(tok)
  {
    var line := pre + TimeMarker + tok + rest;
    var start := |pre| + |TimeMarker|;
    assert line == pre + TimeMarker + (tok + rest);
    MarkerFirstAt(pre, tok + rest);
    assert line[start..start + |tok|] == tok;
    assert start + |tok| < |line| ==> line[start + |tok|] == rest[0];
    NoMarkerInWord(line, start, tok);
    SecondFieldFrom(line, TimeMarker, |pre|, tok);
    var field := SecondField(line, TimeMarker).value;
    FirstWordOfWord(field, tok);
  }

  /** The share of the clip written so far, capped at 100 from above only. */
  function Percent(elapsed: real, clipDuration: real): (pct: real)
    ensures pct <= 100.0
    ensures clipDuration > 0.0 ==> pct <= elapsed / clipDuration * 100.0
    ensures clipDuration > 0.0 ==> pct == 100.0 || pct == elapsed / clipDuration * 100.0
    ensures clipDuration <= 0.0 ==> pct == 0.0
  {
    if clipDuration > 0.0 then
      var raw := elapsed / clipDuration * 100.0;
      if raw <= 100.0 then raw else 100.0
    else 0.0
  }

  /** The remaining time, extrapolated from the wall time spent so far; known only strictly between 0 and 100 percent. */
  function Estimate(pct: real, elapsedWall: real): (r: Option<real>)
    ensures r.Some? <==> 0.0 < pct < 100.0
    ensures r.Some? ==> r.value * pct == elapsedWall * (100.0 - pct)
  {
    if 0.0 < pct < 100.0 then Some((elapsedWall / pct) * (100.0 - pct)) else None
  }

  /**
    `parse_progress_line`, with `now` the wall-clock reading when the line is
    read: `None` for a line without a parsable `time=` token, otherwise the
    percentage and the estimate.
   */
  function ParseProgressLine(line: string, clipDuration: real, startTime: real, now: real): (r: Option<ProgressInfo>)
    ensures !Contains(line, TimeMarker) ==> r.None?
    ensures r.Some? ==> r.value.percent <= 100.0
    ensures r.Some? ==> (r.value.estSecondsRemaining.Some? <==> 0.0 < r.value.percent < 100.0)
  {
    match TimeToken(line)
    case None => None
    case Some(token) =>
      match ParseFfmpegTime(token)
      case None => None
      case Some(elapsed) =>
        var pct := Percent(elapsed, clipDuration);
        Some(ProgressInfo(pct, Estimate(pct, now - startTime)))
  }

  /**
    A line whose first `time=` is followed by the word `tok` reports progress
    exactly when `tok` is a time, and then the report is that time's share of
    the clip and the estimate from the wall time spent.
   */
  lemma ProgressLineMeaning(pre: string, tok: string, rest: string, clipDuration: real, startTime: real, now: real)
    requires !Contains(pre, TimeMarker)
    requires tok != [] && NoSpace(tok) && !Contains(tok, TimeMarker)
    requires rest == [] || IsSpace(rest[0])
    ensures var r := ParseProgressLine(pre + TimeMarker + tok + rest, clipDuration, startTime, now);
      (r.Some? <==> ParseFfmpegTime(tok).Some?)
      && (r.Some? ==>
            var pct := Percent(ParseFfmpegTime(tok).value, clipDuration);
            r.value == ProgressInfo(pct, Estimate(pct, now - startTime)))
  {
    TimeTokenIs(pre, tok, rest);
  }

  /** A line of standard error and the wall-clock reading at which it was read. */
  datatype StderrLine = StderrLine(text: string, clock: real)

  /** The progress reports the callback receives for `lines`, in stream order: at most one per line, none above 100 percent. */
  function ProgressOf(lines: seq<StderrLine>, clipDuration: real, startTime: real): (r: seq<ProgressInfo>)
    ensures |r| <= |lines|
    ensures forall k | 0 <= k < |r| :: r[k].percent <= 100.0
    decreases |lines|
  {
    if lines == [] then []
    else
      var init := ProgressOf(lines[..|lines| - 1], clipDuration, startTime);
      var last := lines[|lines| - 1];
      match ParseProgressLine(last.text, clipDuration, startTime, last.clock)
      case Some(p) => init + [p]
      case None => init
  }

  /** Progress of a stream is the progress of its parts, one after the other. */
  lemma {:induction false} ProgressOfAppend(a: seq<StderrLine>, b: seq<StderrLine>, clip: real, start: real)
    ensures ProgressOf(a + b, clip, start) == ProgressOf(a, clip, start) + ProgressOf(b, clip, start)
    decreases |b|
  {
    if b == [] {
      assert a + b == a;
    } else {
      var init := b[..|b| - 1];
      assert (a + b)[..|a + b| - 1] == a + init;
      assert (a + b)[|a + b| - 1] == b[|b| - 1];
      ProgressOfAppend(a, init, clip, start);
    }
  }

  /** What the process did. */
  datatype ProcessResult =
    | LaunchFailed
    | Exited(startClock: real, stderr: seq<StderrLine>, exitCode: int)

  /** What `run_command` gives back: an exception, or success exactly for exit code 0. */
  datatype RunOutcome = Raised | Finished(success: bool)

  type Tool = seq<string> -> ProcessResult

  /** `_execute`: progress is read only with a callback and a non-zero clip duration. */
  function Executed(result: ProcessResult, clipDuration: Option<real>, hasCallback: bool): (r: (RunOutcome, seq<ProgressInfo>))
    ensures result.LaunchFailed? <==> r.0.Raised?
    ensures r.0.Finished? ==> (r.0.success <==> result.exitCode == 0)
    ensures !(hasCallback && clipDuration.Some? && clipDuration.value != 0.0) ==> r.1 == []
    ensures hasCallback && clipDuration.Some? && clipDuration.value != 0.0 && result.Exited? ==>
      r.1 == ProgressOf(result.stderr, clipDuration.value, result.startClock)
    ensures r.0.Raised? ==> r.1 == []
  {
    match result
    case LaunchFailed => (Raised, [])
    case Exited(start, lines, code) =>
      var progress := if hasCallback && clipDuration.Some? && clipDuration.value != 0.0
        then ProgressOf(lines, clipDuration.value, start) else [];
      (Finished(code == 0), progress)
  }

  /** One more line adds that line's report, if it has one. */
  lemma ProgressOfStep(lines: seq<StderrLine>, i: nat, clipDuration: real, startTime: real)
    requires i < |lines|
    ensures var r := ParseProgressLine(lines[i].text, clipDuration, startTime, lines[i].clock);
      ProgressOf(lines[..i + 1], clipDuration, startTime)
      == ProgressOf(lines[..i], clipDuration, startTime) + (if r.Some? then [r.value] else [])
  {
    assert lines[..i + 1][..i] == lines[..i];
  }

  /** `_parse_progress`: one report per line that parses, in the order read. */
  method ParseProgress(lines: seq<StderrLine>, clipDuration: real, startTime: real) returns (reports: seq<ProgressInfo>)
    ensures reports == ProgressOf(lines, clipDuration, startTime)
  {
    reports := [];
    var i := 0;
    while i < |lines|
      invariant i <= |lines|
      invariant reports == ProgressOf(lines[..i], clipDuration, startTime)
    {
      ProgressOfStep(lines, i, clipDuration, startTime);
      var progress := ParseProgressLine(lines[i].text, clipDuration, startTime, lines[i].clock);
      if progress.Some? {
        reports := reports + [progress.value];
      }
      i := i + 1;
    }
    assert lines[..i] == lines;
  }

  /** A counting semaphore: `inUse` of `capacity` slots are taken. */
  class Gate {
    const capacity: nat
    var inUse: nat

    constructor (capacity: nat)
      ensures this.capacity == capacity && inUse == 0
    {
      this.capacity := capacity;
      inUse := 0;
    }

    method Acquire()
      requires inUse < capacity
      modifies this
      ensures inUse == old(inUse) + 1
    {
      inUse := inUse + 1;
    }

    method Release()
      requires inUse > 0
      modifies this
      ensures inUse == old(inUse) - 1
    {
      inUse := inUse - 1;
    }
  }

  /** `CommandRunner`, with or without a gate. */
  class CommandRunner {
    const gate: Gate?

    constructor (gate: Gate?)
      ensures this.gate == gate
    {
      this.gate := gate;
    }

    method Execute(cmd: seq<string>, clipDuration: Option<real>, hasCallback: bool, tool: Tool)
      returns (outcome: RunOutcome, reports: seq<ProgressInfo>)
      ensures (outcome, reports) == Executed(tool(cmd), clipDuration, hasCallback)
    {
      var result := tool(cmd);
      if result.LaunchFailed? {
        return Raised, [];
      }
      reports := [];
      if hasCallback && clipDuration.Some? && clipDuration.value != 0.0 {
        reports := ParseProgress(result.stderr, clipDuration.value, result.startClock);
      }
      outcome := Finished(result.exitCode == 0);
    }

    /**
      `run_command`: with a gate, one slot is held while the command runs and
      given back on every path, exception included.
     */
    method RunCommand(cmd: seq<string>, clipDuration: Option<real>, hasCallback: bool, tool: Tool)
      returns (outcome: RunOutcome, reports: seq<ProgressInfo>, ghost slotsWhileRunning: nat)
      requires gate != null ==> gate.inUse < gate.capacity
      modifies gate
      ensures (outcome, reports) == Executed(tool(cmd), clipDuration, hasCallback)
      ensures gate != null ==> gate.inUse == old(gate.inUse) && slotsWhileRunning == old(gate.inUse) + 1
    {
      if gate != null {
        gate.Acquire();
        slotsWhileRunning := gate.inUse;
        outcome, reports := Execute(cmd, clipDuration, hasCallback, tool);
        gate.Release();
      } else {
        slotsWhileRunning := 0;
        outcome, reports := Execute(cmd, clipDuration, hasCallback, tool);
      }
    }
  }
}
