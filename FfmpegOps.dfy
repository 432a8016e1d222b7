/** What the detection service reads from ffmpeg and ffprobe
    (yolo-service/modules/ffmpeg_ops.py): the raw-frame length check and the
    parsing of ffprobe's output, with the fallbacks used when probing fails.
    The processes themselves are inputs here. */
module FfmpegOps {
  import opened Common

  /** FFMPEG_TIMEOUT, FFMPEG_PROTOCOL_WHITELIST and FFMPEG_LOGLEVEL in yolo-service/config.py. */
  const ConfigTimeout := 10
  const ProtocolWhitelist := "file,http,https,tcp,tls,crypto"
  const LogLevel := "error"
  const DefaultDimensions := (1280, 720)
  const DefaultFps: real := 25.0

  /** `timeout or config.FFMPEG_TIMEOUT`: None and 0 take the default. */
  function EffectiveTimeout(timeout: Option<int>): (t: int)
    ensures timeout.None? || timeout == Some(0) ==> t == ConfigTimeout
    ensures timeout.Some? && timeout.value != 0 ==> t == timeout.value
  {
    if timeout.Some? && timeout.value != 0 then timeout.value else ConfigTimeout
  }

  /** Bytes of one bgr24 frame. */
  function FrameSize(width: int, height: int): int
  {
    width * height * 3
  }

  /** The arguments of the stream reader: the URL decoded without audio to raw
      bgr24 frames (three bytes a pixel) on standard output. */
  function ReaderCommand(url: string): (command: seq<string>)
    ensures |command| == 19 && command[0] == "ffmpeg" && command[18] == "pipe:1"
    ensures command[3] == "-i" && command[4] == url
    ensures command[10] == "-pix_fmt" && command[11] == "bgr24" && command[7] == "-an"
  {
    ["ffmpeg", "-protocol_whitelist", ProtocolWhitelist, "-i", url, "-loglevel", LogLevel,
     "-an", "-f", "rawvideo", "-pix_fmt", "bgr24", "-vsync", "0", "-fflags", "nobuffer",
     "-flags", "low_delay", "pipe:1"]
  }

  class FFmpegStreamer {
    const url: string
    const width: int
    const height: int
    const frameSize: int
    /** Whether a process was started, and whether it has a stdout pipe. */
    var hasProcess: bool
    var hasStdout: bool

    constructor (urlArg: string, widthArg: int, heightArg: int)
      ensures url == urlArg && width == widthArg && height == heightArg
      ensures frameSize == FrameSize(widthArg, heightArg)
      ensures !hasProcess && !hasStdout
    {
      url := urlArg;
      width := widthArg;
      height := heightArg;
      frameSize := FrameSize(widthArg, heightArg);
      hasProcess := false;
      hasStdout := false;
    }

    /** `start`: the reader process is launched with its stdout piped; the
        command it runs is returned. */
    method Start() returns (command: seq<string>)
      modifies this
      ensures hasProcess && hasStdout
      ensures command == ReaderCommand(url)
    {
      command := ReaderCommand(url);
      hasProcess := true;
      hasStdout := true;
    }

    /** `get_frame`, given the bytes one `read(frame_size)` returned: a frame
        only from a running process, and only when the read is complete. */
    function GetFrame(raw: seq<byte>): (frame: Option<seq<byte>>)
      reads this
      ensures frame.Some? <==> hasProcess && hasStdout && |raw| == frameSize && |raw| != 0
      ensures frame.Some? ==> frame.value == raw
    {
      if !hasProcess || !hasStdout then None
      else if |raw| == 0 || |raw| != frameSize then None
      else Some(raw)
    }
  }

  // ---------------------------------------------------------------------
  // ffprobe output

  /** How a `subprocess.run` of ffprobe ended. */
  datatype ProbeRun = TimedOut | Finished(returnCode: int, stdout: string)

  /** The first line of the stripped output. */
  function FirstLine(out: string): string
  {
    Split(Strip(out, PyWhitespace), '\n')[0]
  }

  /** `get_dimensions`: "WxH" from the first comma-separated field of the first
      line; (1280, 720) on a timeout, a non-zero exit, empty output, or any
      field that does not read as exactly two integers. */
  function Dimensions(run: ProbeRun): (r: (int, int))
    ensures run.TimedOut? || run.returnCode != 0 || Strip(run.stdout, PyWhitespace) == [] ==> r == DefaultDimensions
  {
    if run.TimedOut? || run.returnCode != 0 || Strip(run.stdout, PyWhitespace) == [] then DefaultDimensions
    else
      var field := Split(FirstLine(run.stdout), ',')[0];
      var wh := Split(field, 'x');
      if |wh| == 2 && PyInt(wh[0]).Some? && PyInt(wh[1]).Some? then
        (PyInt(wh[0]).value, PyInt(wh[1]).value)
      else DefaultDimensions
  }

  /** `get_fps`: "num/den" from the first field of the first line as a ratio;
      25 on a timeout, a non-zero exit, empty output, a malformed ratio or a
      zero denominator. */
  function Fps(run: ProbeRun): (r: real)
    ensures run.TimedOut? || run.returnCode != 0 || Strip(run.stdout, PyWhitespace) == [] ==> r == DefaultFps
  {
    if run.TimedOut? || run.returnCode != 0 || Strip(run.stdout, PyWhitespace) == [] then DefaultFps
    else
      var field := Split(FirstLine(run.stdout), ',')[0];
      var nd := Split(field, '/');
      if |nd| == 2 && PyInt(nd[0]).Some? && PyInt(nd[1]).Some? && PyInt(nd[1]).value != 0 then
        PyInt(nd[0]).value as real / PyInt(nd[1]).value as real
      else DefaultFps
  }

  // ---------------------------------------------------------------------
  // Properties

  lemma FirstPart(a: string, sep: char, b: string)
    requires sep !in a
    ensures Split(a + [sep] + b, sep)[0] == a
  {
    SplitConcat(a, b, sep);
    SplitWithoutSep(a, sep);
  }

  /** Whatever follows the first line, the first line of the stripped output is
      that line, when it has no surrounding whitespace. */
  lemma FirstLineOf(line: string, rest: string)
    requires line != [] && line[0] !in PyWhitespace && line[|line| - 1] !in PyWhitespace && '\n' !in line
    ensures FirstLine(line + "\n" + rest) == line
  {
    var s := line + "\n" + rest;
    var l := StripLeft(s, PyWhitespace);
    assert s[0] == line[0];
    assert l == s;
    var r := StripRight(l, PyWhitespace);
    assert s[|line| - 1] == line[|line| - 1];
    assert |r| >= |line|;
    if |r| == |line| {
      assert r == line;
      SplitWithoutSep(line, '\n');
    } else {
      assert r == line + "\n" + s[|line| + 1..|r|];
      FirstPart(line, '\n', s[|line| + 1..|r|]);
    }
  }

  /** Text that is one token: non-empty, no whitespace at either end, and
      none of the separators ffprobe's csv output uses. */
  predicate Token(t: string, sep: char)
  {
    t != [] && t[0] !in PyWhitespace && t[|t| - 1] !in PyWhitespace && '\n' !in t && ',' !in t && sep !in t
  }

  lemma DecimalIsToken(n: nat, sep: char)
    requires !IsDigit(sep)
    ensures Token(NatToDecimal(n), sep)
  {
    var d := NatToDecimal(n);
    assert forall k :: 0 <= k < |d| ==> IsDigit(d[k]);
  }

  /** The output is not blank when it starts with a token. */
  lemma NotBlank(line: string, rest: string)
    requires line != [] && line[0] !in PyWhitespace && line[|line| - 1] !in PyWhitespace
    ensures Strip(line + "\n" + rest, PyWhitespace) != []
  {
    var out := line + "\n" + rest;
    assert out[0] == line[0];
    assert StripLeft(out, PyWhitespace) == out;
    assert out[|line| - 1] == line[|line| - 1];
    assert |StripRight(out, PyWhitespace)| >= |line|;
  }

  /** The first field of "a<sep>b" on the first line splits into a and b. */
  lemma FirstFieldParts(a: string, sep: char, b: string, rest: string)
    requires Token(a, sep) && Token(b, sep) && sep != '\n' && sep != ','
    ensures Strip(a + [sep] + b + "\n" + rest, PyWhitespace) != []
    ensures Split(Split(FirstLine(a + [sep] + b + "\n" + rest), ',')[0], sep) == [a, b]
  {
    var line := a + [sep] + b;
    assert '\n' !in line && ',' !in line;
    assert line[0] == a[0] && line[|line| - 1] == b[|b| - 1];
    FirstLineOf(line, rest);
    NotBlank(line, rest);
    SplitWithoutSep(line, ',');
    SplitConcat(a, b, sep);
    SplitWithoutSep(a, sep);
    SplitWithoutSep(b, sep);
  }

  /** ffprobe's "WxH" line reads back as the width and height. */
  lemma DimensionsOfProbe(w: nat, h: nat, rest: string)
    ensures Dimensions(Finished(0, NatToDecimal(w) + "x" + NatToDecimal(h) + "\n" + rest)) == (w, h)
  {
    DecimalIsToken(w, 'x');
    DecimalIsToken(h, 'x');
    FirstFieldParts(NatToDecimal(w), 'x', NatToDecimal(h), rest);
    PyIntOfDecimal(w);
    PyIntOfDecimal(h);
  }

  /** ffprobe's "num/den" line reads back as the ratio. */
  lemma FpsOfProbe(num: nat, den: nat, rest: string)
    requires den != 0
    ensures Fps(Finished(0, NatToDecimal(num) + "/" + NatToDecimal(den) + "\n" + rest)) == num as real / den as real
  {
    DecimalIsToken(num, '/');
    DecimalIsToken(den, '/');
    FirstFieldParts(NatToDecimal(num), '/', NatToDecimal(den), rest);
    PyIntOfDecimal(num);
    PyIntOfDecimal(den);
  }

  /** A zero denominator (ZeroDivisionError) falls back to 25. */
  lemma ZeroDenominatorDefault(num: nat, rest: string)
    ensures Fps(Finished(0, NatToDecimal(num) + "/" + "0" + "\n" + rest)) == DefaultFps
  {
    DecimalIsToken(num, '/');
    DecimalIsToken(0, '/');
    assert NatToDecimal(0) == "0";
    FirstFieldParts(NatToDecimal(num), '/', "0", rest);
    PyIntOfDecimal(0);
  }

  /** A first field without the 'x' separator is malformed. */
  lemma DimensionsWithoutSeparator(line: string, rest: string)
    requires line != [] && line[0] !in PyWhitespace && line[|line| - 1] !in PyWhitespace
    requires '\n' !in line && ',' !in line && 'x' !in line
    ensures Dimensions(Finished(0, line + "\n" + rest)) == DefaultDimensions
  {
    FirstLineOf(line, rest);
    SplitWithoutSep(line, ',');
    SplitWithoutSep(line, 'x');
  }
}
