/**
 * The application log (`AppPorts/Services/AppLogger.swift`): a size limit
 * kept in the user defaults, a text file that is cut to its newer half of
 * lines once it grows past the limit, and the line format of every entry.
 */
module Logging {
  import opened Outcomes
  import opened Text

  /** 2 MiB, used while no positive limit is stored. */
  const DefaultMaxSize: int := 2 * 1024 * 1024

  /** The lines of a log text, split at every line break. */
  function Lines(content: string): seq<string>
  {
    SplitOn(content, '\n')
  }

  /** The last `|lines| / 2` lines of the text, joined again. */
  function Rotated(content: string): string
  {
    var lines := Lines(content);
    Join(lines[|lines| - |lines| / 2..], "\n")
  }

  /** One entry: `[timestamp] [level] message` and a line break. */
  function LogLine(timestamp: string, level: string, message: string): string
  {
    "[" + timestamp + "] [" + level + "] " + message + "\n"
  }

  /** What `logError` knows about an error: its description, its dynamic
    * type's name, the `NSError` domain and code it bridges to, and the
    * printed underlying error, if any. */
  datatype ErrorInfo = ErrorInfo(description: string, typeName: string, domain: string, code: int,
                                 underlying: Option<string>)

  /** The message `logError` logs. Every Swift error bridges to an
    * `NSError`, so the domain and code are always appended. */
  function ErrorMessage(message: string, error: Option<ErrorInfo>): string
  {
    match error
    case None => message
    case Some(e) =>
      message + " | 错误: " + e.description + " | 类型: " + e.typeName +
      " | Domain: " + e.domain + " | Code: " + Decimal(e.code) +
      (if e.underlying.Some? then " | 底层错误: " + e.underlying.value else "")
  }

  /** The logger: the stored size setting (`0` when none is stored, as
    * `UserDefaults.integer(forKey:)` reads it) and the log file's text,
    * `None` while the file does not exist. */
  class Logger {
    var savedMaxSize: int
    var file: Option<string>

    constructor (savedMaxSize: int, file: Option<string>)
      ensures this.savedMaxSize == savedMaxSize && this.file == file
    {
      this.savedMaxSize := savedMaxSize;
      this.file := file;
    }

    /** `maxLogSize` read: the stored value when positive, else 2 MiB. */
    function MaxLogSize(): (r: int)
      reads this
      ensures r > 0
      ensures savedMaxSize > 0 ==> r == savedMaxSize
    {
      if savedMaxSize > 0 then savedMaxSize else DefaultMaxSize
    }

    /** `maxLogSize` write: the value is stored as it is. */
    method SetMaxLogSize(n: int)
      modifies this
      ensures savedMaxSize == n && file == old(file)
      ensures n > 0 ==> MaxLogSize() == n
      ensures n <= 0 ==> MaxLogSize() == DefaultMaxSize
    {
      savedMaxSize := n;
    }

    /** `rotateLogIfNeeded`: only a file whose size in bytes exceeds the
      * limit is rewritten, with its newer half of lines. */
    method RotateLogIfNeeded()
      modifies this
      ensures savedMaxSize == old(savedMaxSize)
      ensures file == RotatedFile(old(file), old(MaxLogSize()))
    {
      if file.None? {
        return;
      }
      var content := file.value;
      var fileSize := Utf8Length(content);
      if !(fileSize > MaxLogSize()) {
        return;
      }
      var lines := SplitOn(content, '\n');
      var keepLines := lines[|lines| - |lines| / 2..];
      file := Some(Join(keepLines, "\n"));
    }

    /** `log`: the entry is formed, the file rotated if needed, and the
      * entry appended, or written as a new file when there is none;
      * `writeFails` stands for a file that cannot be opened or written,
      * which leaves the file as the rotation left it. */
    method Log(message: string, timestamp: string, writeFails: bool, level: string := "INFO")
      modifies this
      ensures savedMaxSize == old(savedMaxSize)
      ensures file == Appended(RotatedFile(old(file), old(MaxLogSize())), LogLine(timestamp, level, message), writeFails)
    {
      var logLine := LogLine(timestamp, level, message);
      RotateLogIfNeeded();
      if writeFails {
        return;
      }
      if file.Some? {
        file := Some(file.value + logLine);
      } else {
        file := Some(logLine);
      }
    }

    /** `logError`: the message with the error's details, at level ERROR. */
    method LogError(message: string, error: Option<ErrorInfo>, timestamp: string, writeFails: bool)
      modifies this
      ensures savedMaxSize == old(savedMaxSize)
      ensures file == Appended(RotatedFile(old(file), old(MaxLogSize())),
                               LogLine(timestamp, "ERROR", ErrorMessage(message, error)), writeFails)
    {
      var fullMessage := ErrorMessage(message, error);
      Log(fullMessage, timestamp, writeFails, "ERROR");
    }
  }

  /** The file after the rotation check against `limit`. */
  function RotatedFile(file: Option<string>, limit: int): Option<string>
  {
    if file.Some? && Utf8Length(file.value) > limit then Some(Rotated(file.value)) else file
  }

  /** The file after an entry is written to it. */
  function Appended(file: Option<string>, line: string, writeFails: bool): Option<string>
  {
    if writeFails then file
    else if file.Some? then Some(file.value + line)
    else Some(line)
  }

  /** Joining two non-empty runs of pieces is joining each and putting the
    * separator between. */
  lemma {:induction false} JoinAppend(a: seq<string>, b: seq<string>, sep: string)
    requires a != [] && b != []
    ensures Join(a + b, sep) == Join(a, sep) + sep + Join(b, sep)
    decreases |a|
  {
    if |a| == 1 {
      assert (a + b)[1..] == b;
    } else {
      assert (a + b)[1..] == a[1..] + b;
      JoinAppend(a[1..], b, sep);
    }
  }

  /** Rotation keeps exactly the last `n / 2` of the `n` lines, in their
    * order (at least two lines, so that the half is not empty), and the
    * rotated text is a tail of the original text. */
  lemma RotationKeepsNewerHalf(content: string)
    ensures var lines := Lines(content);
      |lines| >= 2 ==> Lines(Rotated(content)) == lines[|lines| - |lines| / 2..] &&
                       |Lines(Rotated(content))| == |lines| / 2
    ensures |Rotated(content)| <= |content| && Rotated(content) == content[|content| - |Rotated(content)|..]
  {
    var lines := Lines(content);
    var n := |lines|;
    var keep := lines[n - n / 2..];
    if n >= 2 {
      SplitJoin(keep, '\n');
      var front := lines[..n - n / 2];
      assert lines == front + keep;
      JoinAppend(front, keep, "\n");
      JoinSplit(content, '\n');
    } else {
      assert keep == [];
    }
  }

  /** A successful write leaves the entry at the end of the file, after the
    * whole of the text the rotation left. */
  lemma EntryIsLast(file: Option<string>, limit: int, line: string)
    ensures var before := RotatedFile(file, limit);
      var after := Appended(before, line, false);
      after.Some? && |after.value| >= |line| && after.value[|after.value| - |line|..] == line &&
      (before.Some? ==> after.value[..|before.value|] == before.value)
  {
  }

  /** `logError` without an error logs the message unchanged; with one, the
    * message is the start of what is logged. */
  lemma ErrorMessageExtends(message: string, error: Option<ErrorInfo>)
    ensures error.None? ==> ErrorMessage(message, error) == message
    ensures |ErrorMessage(message, error)| >= |message| &&
            ErrorMessage(message, error)[..|message|] == message
  {
  }
}
