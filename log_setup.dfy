/** The log files of `processmanager/core/logger_setup.py` and
    `src/logger_setup.py`: a file handler that keeps only the newest
    `maxBytes` bytes of its file, and the one-time logger setup that writes a
    restart header into a non-empty log. */
module LogSetup {
  type Byte = b: int | 0 <= b < 256

  /** The files on disk by path; a path that is not a key does not exist. */
  class Disk {
    var files: map<string, seq<Byte>>

    constructor(files: map<string, seq<Byte>>)
      ensures this.files == files
    {
      this.files := files;
    }
  }

  /** The file's bytes, empty where it does not exist. */
  function Contents(files: map<string, seq<Byte>>, path: string): seq<Byte> {
    if path in files then files[path] else []
  }

  /** `_truncate_if_needed` on a file holding `data`: above `maxBytes` the
      file is rewritten with what a read after `seek(-maxBytes, SEEK_END)`
      returns, the last `maxBytes` bytes, and nothing when `maxBytes` is not
      positive (the seek then lands at or past the end). */
  function Truncated(data: seq<Byte>, maxBytes: int): (r: seq<Byte>)
    ensures |data| <= maxBytes ==> r == data
    ensures |data| > maxBytes ==> |r| == (if maxBytes < 0 then 0 else maxBytes)
    ensures r == data[|data| - |r|..]
  {
    if |data| <= maxBytes then data
    else if maxBytes <= 0 then []
    else data[|data| - maxBytes..]
  }

  class TruncatingFileHandler {
    const path: string
    const maxBytes: int

    /** A handler on `path`; opening in append mode creates a missing file. */
    constructor(disk: Disk, path: string, maxBytes: int)
      modifies disk
      ensures this.path == path && this.maxBytes == maxBytes
      ensures disk.files == old(disk.files)[path := Contents(old(disk.files), path)]
    {
      this.path := path;
      this.maxBytes := maxBytes;
      disk.files := disk.files[path := Contents(disk.files, path)];
    }

    method TruncateIfNeeded(disk: Disk)
      modifies disk
      ensures disk.files == old(disk.files)[path := Truncated(Contents(old(disk.files), path), maxBytes)]
    {
      var data := Contents(disk.files, path);
      if |data| > maxBytes {
        var kept: seq<Byte> := [];
        if maxBytes > 0 {
          kept := data[|data| - maxBytes..];
        }
        disk.files := disk.files[path := kept];
      } else {
        disk.files := disk.files[path := data];
      }
    }

    /** `emit(record)`: the formatted record, terminator included, is
        appended and the file is then truncated. */
    method Emit(disk: Disk, record: seq<Byte>)
      modifies disk
      ensures disk.files == old(disk.files)[path := Truncated(Contents(old(disk.files), path) + record, maxBytes)]
    {
      disk.files := disk.files[path := Contents(disk.files, path) + record];
      TruncateIfNeeded(disk);
    }
  }

  /** After an emit the file holds at most `maxBytes` bytes (none when
      `maxBytes` is not positive) and, when the record fits, ends with it. */
  lemma EmitBounds(data: seq<Byte>, record: seq<Byte>, maxBytes: int)
    ensures |Truncated(data + record, maxBytes)| <= (if maxBytes < 0 then 0 else maxBytes)
      || |data + record| <= maxBytes
    ensures 0 <= maxBytes ==> |Truncated(data + record, maxBytes)| <= maxBytes
    ensures |record| <= maxBytes ==> var r := Truncated(data + record, maxBytes);
      |r| >= |record| && r[|r| - |record|..] == record
  {
    var x := data + record;
    var r := Truncated(x, maxBytes);
    if |record| <= maxBytes {
      assert x[|x| - |record|..] == record;
      assert r[|r| - |record|..] == x[|x| - |record|..];
    }
  }

  /** A second truncation check after a first changes nothing. */
  lemma TruncateIdempotent(data: seq<Byte>, maxBytes: int)
    ensures Truncated(Truncated(data, maxBytes), maxBytes) == Truncated(data, maxBytes)
  {
  }

  /** A truncation keeps a suffix of the file: the newest bytes survive, in
      order. */
  lemma {:induction false} TruncateKeepsNewest(data: seq<Byte>, extra: seq<Byte>, maxBytes: int)
    requires |extra| <= |Truncated(data + extra, maxBytes)|
    ensures Truncated(data + extra, maxBytes)[|Truncated(data + extra, maxBytes)| - |extra|..] == extra
  {
    var x := data + extra;
    var r := Truncated(x, maxBytes);
    assert r[|r| - |extra|..] == x[|x| - |extra|..];
    assert x[|x| - |extra|..] == extra;
  }


  /** Text written to a file opened in text mode: every character here is
      ASCII, one byte each. */
  function Ascii(s: string): (r: seq<Byte>)
    requires forall i :: 0 <= i < |s| ==> s[i] as int < 128
    ensures |r| == |s| && forall i :: 0 <= i < |s| ==> r[i] == s[i] as int
    decreases |s|
  {
    if s == [] then [] else [s[0] as int] + Ascii(s[1..])
  }

  /** `n` copies of `c`. */
  function Repeat(c: char, n: nat): (r: string)
    ensures |r| == n && forall i :: 0 <= i < n ==> r[i] == c
  {
    if n == 0 then [] else [c] + Repeat(c, n - 1)
  }

  const RESTART_TITLE: string := " [Process Manager Restarted] "

  /** The header written before the first record after a restart: a newline,
      22 '=', the title, 23 '=' and a newline. */
  const RESTART_HEADER: string := "\n" + Repeat('=', 22) + RESTART_TITLE + Repeat('=', 23) + "\n"

  /** The header's characters are ASCII. */
  lemma HeaderIsAscii()
    ensures forall i :: 0 <= i < |RESTART_HEADER| ==> RESTART_HEADER[i] as int < 128
  {
    assert forall i :: 0 <= i < |RESTART_TITLE| ==> RESTART_TITLE[i] as int < 128;
  }

  function HeaderBytes(): (r: seq<Byte>)
    ensures |r| == |RESTART_HEADER| && forall i :: 0 <= i < |r| ==> r[i] == RESTART_HEADER[i] as int
  {
    HeaderIsAscii();
    Ascii(RESTART_HEADER)
  }

  /** The handlers a logger can hold. */
  datatype Handler = FileHandler(path: string, maxBytes: int) | ConsoleHandler

  /** A logger's level and its handler list. */
  class Logger {
    var level: int
    var handlers: seq<Handler>

    constructor()
      ensures level == 0 && handlers == []
    {
      level := 0;
      handlers := [];
    }
  }

  /** The file after the restart-header step: appended to when the condition
      holds and the file exists with some content. */
  function WithHeader(files: map<string, seq<Byte>>, path: string, mark: bool): map<string, seq<Byte>> {
    if mark && path in files && |files[path]| > 0 then files[path := files[path] + HeaderBytes()] else files
  }

  const BASE_MAX_BYTES: int := 4 * 1024
  const LOGGER_MAX_BYTES: int := 10 * 1024 * 1024

  /** `setup_base_logging(log_file, level, mark_restart)` of the package: the
      root level is always set; only a root logger without handlers gets the
      optional header, a 4 KiB truncating file handler and a console
      handler. */
  function BaseSetupSpec(handlers: seq<Handler>, files: map<string, seq<Byte>>, logFile: string, markRestart: bool)
    : (seq<Handler>, map<string, seq<Byte>>)
  {
    if handlers != [] then (handlers, files)
    else
      var f := WithHeader(files, logFile, markRestart);
      ([FileHandler(logFile, BASE_MAX_BYTES), ConsoleHandler], f[logFile := Contents(f, logFile)])
  }

  /** `setup_logger(name, log_file, level)` of the first draft: a logger
      without handlers gets the header whenever its file exists with content,
      then one 10 MiB truncating file handler. */
  function LoggerSetupSpec(handlers: seq<Handler>, files: map<string, seq<Byte>>, logFile: string)
    : (seq<Handler>, map<string, seq<Byte>>)
  {
    if handlers != [] then (handlers, files)
    else
      var f := WithHeader(files, logFile, true);
      ([FileHandler(logFile, LOGGER_MAX_BYTES)], f[logFile := Contents(f, logFile)])
  }

  method SetupBaseLogging(root: Logger, disk: Disk, logFile: string, level: int, markRestart: bool)
    modifies root, disk
    ensures root.level == level
    ensures (root.handlers, disk.files) == BaseSetupSpec(old(root.handlers), old(disk.files), logFile, markRestart)
  {
    root.level := level;
    if root.handlers == [] {
      if markRestart && logFile in disk.files && |disk.files[logFile]| > 0 {
        disk.files := disk.files[logFile := disk.files[logFile] + HeaderBytes()];
      }
      var fileHandler := new TruncatingFileHandler(disk, logFile, BASE_MAX_BYTES);
      assert disk.files == BaseSetupSpec(old(root.handlers), old(disk.files), logFile, markRestart).1;
      root.handlers := [FileHandler(logFile, BASE_MAX_BYTES), ConsoleHandler];
    }
  }

  method SetupLogger(logger: Logger, disk: Disk, logFile: string, level: int)
    modifies logger, disk
    ensures logger.level == level
    ensures (logger.handlers, disk.files) == LoggerSetupSpec(old(logger.handlers), old(disk.files), logFile)
  {
    logger.level := level;
    if logger.handlers == [] {
      if logFile in disk.files && |disk.files[logFile]| > 0 {
        disk.files := disk.files[logFile := disk.files[logFile] + HeaderBytes()];
      }
      var handler := new TruncatingFileHandler(disk, logFile, LOGGER_MAX_BYTES);
      assert disk.files == LoggerSetupSpec(old(logger.handlers), old(disk.files), logFile).1;
      logger.handlers := [FileHandler(logFile, LOGGER_MAX_BYTES)];
    }
  }

  /** Setting logging up again changes nothing: no duplicate handlers and no
      second header. */
  lemma SetupIdempotent(handlers: seq<Handler>, files: map<string, seq<Byte>>, logFile: string, markRestart: bool)
    ensures var (h1, f1) := BaseSetupSpec(handlers, files, logFile, markRestart);
      BaseSetupSpec(h1, f1, logFile, markRestart) == (h1, f1) && |h1| >= 1
    ensures var (h1, f1) := LoggerSetupSpec(handlers, files, logFile);
      LoggerSetupSpec(h1, f1, logFile) == (h1, f1) && |h1| >= 1
  {
  }

  /** The header is appended exactly when the logger had no handlers, the
      restart is to be marked and the file exists with content; the file
      exists afterwards whenever handlers were attached, and no other file
      changes. */
  lemma HeaderIff(handlers: seq<Handler>, files: map<string, seq<Byte>>, logFile: string, markRestart: bool)
    ensures var (_, f) := BaseSetupSpec(handlers, files, logFile, markRestart);
      && (handlers == [] ==> logFile in f)
      && (forall p :: p != logFile ==> (p in f <==> p in files) && (p in files ==> f[p] == files[p]))
      && (logFile in files ==> (f[logFile] == files[logFile] + HeaderBytes() <==>
            handlers == [] && markRestart && |files[logFile]| > 0))
    ensures var (_, f) := LoggerSetupSpec(handlers, files, logFile);
      logFile in files ==> (f[logFile] == files[logFile] + HeaderBytes() <==> handlers == [] && |files[logFile]| > 0)
  {
    var hb := HeaderBytes();
    if logFile in files {
      var d := files[logFile];
      assert |d + hb| != |d|;
    }
  }
}
