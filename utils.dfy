/** The helpers of `processmanager/core/utils.py`: looking up a schedule
    entry, loading the schedule document with its hash check, the IB trading
    window, and killing a process by name from `ps` output. */
module Utils {
  import opened PyStr
  import opened Clock
  import opened Job
  import opened TaskCalendar
  import opened Supervisor

  /** One entry of the "schedules" list, with the fields the core reads.
      `loads` says whether "program_class" names a class that imports, is a
      `BaseProgram` subclass and constructs without raising. */
  datatype Entry = Entry(
    kind: Option<string>,
    name: Option<string>,
    programClass: Option<string>,
    loads: bool,
    program: ProgramConfig,
    task: TaskConfig)

  /** The task object built from an entry: it takes its name from the entry. */
  function TaskOf(e: Entry): TaskConfig {
    e.task.(name := e.name)
  }

  /** Whether an entry has the given "type" and "name". */
  predicate MatchesJob(e: Entry, kind: string, name: string) {
    e.kind == Some(kind) && e.name == Some(name)
  }

  /** Index of the first entry of that type and name. */
  function FirstMatch(schedules: seq<Entry>, kind: string, name: string): (r: Option<nat>)
    ensures r.Some? ==> r.value < |schedules| && MatchesJob(schedules[r.value], kind, name)
    ensures r.Some? ==> forall j :: 0 <= j < r.value ==> !MatchesJob(schedules[j], kind, name)
    ensures r.None? ==> forall j :: 0 <= j < |schedules| ==> !MatchesJob(schedules[j], kind, name)
    decreases |schedules|
  {
    if schedules == [] then None
    else if MatchesJob(schedules[0], kind, name) then Some(0)
    else
      match FirstMatch(schedules[1..], kind, name)
      case None => None
      case Some(i) => Some(i + 1)
  }

  /** The loop of `get_job_sched` over the loaded entries: the first match, or
      `None` where it raises `ValueError`. */
  method FindSchedule(schedules: seq<Entry>, kind: string, name: string) returns (found: Option<Entry>)
    ensures found.Some? <==> FirstMatch(schedules, kind, name).Some?
    ensures found.Some? ==> found.value == schedules[FirstMatch(schedules, kind, name).value]
  {
    var i := 0;
    while i < |schedules|
      invariant 0 <= i <= |schedules|
      invariant forall j :: 0 <= j < i ==> !MatchesJob(schedules[j], kind, name)
      decreases |schedules| - i
    {
      if MatchesJob(schedules[i], kind, name) {
        return Some(schedules[i]);
      }
      i := i + 1;
    }
    return None;
  }

  /** The schedule file: unreadable or not JSON, JSON that is not an object
      (whose `.get` raises), or an object with or without a "schedules"
      list. */
  datatype ScheduleFile = Unreadable | NotAnObject | Document(schedules: Option<seq<Entry>>)

  /** The hash file next to it: absent, present but unreadable, or its text. */
  datatype HashFile = NoHashFile | UnreadableHash | HashText(text: string)

  predicate IsHexDigit(c: char) {
    '0' <= c <= '9' || 'a' <= c <= 'f'
  }

  /** A SHA-256 `hexdigest()`: lower-case hexadecimal text. The hash itself is
      not modelled; the digest of the loaded entries is an input. */
  type Digest = s: string | forall i :: 0 <= i < |s| ==> IsHexDigit(s[i])

  /** What `load_schedules` returns, or `LoadRaised` where it raises. */
  datatype Loaded = Loaded(schedules: seq<Entry>, validHash: bool) | LoadRaised

  /** The previous digest: the stripped text of a readable hash file. */
  function OldDigest(h: HashFile): (r: Option<string>)
    ensures r.Some? <==> h.HashText?
  {
    match h
    case HashText(t) => Some(Strip(t))
    case _ => None
  }

  /** `valid_hash`: false with no readable previous hash, otherwise whether the
      stored digest equals the new one. */
  function ValidHash(h: HashFile, digest: Digest): (valid: bool)
    ensures !h.HashText? ==> !valid
    ensures h.HashText? ==> (valid <==> Strip(h.text) == digest)
  {
    OldDigest(h).Some? && OldDigest(h).value == digest
  }

  /** The entries and hash file after `load_schedules(write_hash)`, where
      `digest` is the digest of the entries and `writable` says whether
      writing the hash file succeeds (a failed write is only logged). */
  function LoadSpec(file: ScheduleFile, h: HashFile, writeHash: bool, digest: Digest, writable: bool): (Loaded, HashFile) {
    match file
    case Unreadable => (Loaded([], false), h)
    case NotAnObject => (LoadRaised, h)
    case Document(entries) =>
      var schedules := if entries.None? then [] else entries.value;
      (Loaded(schedules, ValidHash(h, digest)), if writeHash && writable then HashText(digest) else h)
  }

  /** The schedule file and its hash file. */
  class ScheduleStore {
    const file: ScheduleFile
    var hash: HashFile

    constructor(file: ScheduleFile, hash: HashFile)
      ensures this.file == file && this.hash == hash
    {
      this.file := file;
      this.hash := hash;
    }

    method LoadSchedules(writeHash: bool, digest: Digest, writable: bool) returns (r: Loaded)
      modifies this
      ensures (r, hash) == LoadSpec(file, old(hash), writeHash, digest, writable)
    {
      match file {
        case Unreadable => return Loaded([], false);
        case NotAnObject => return LoadRaised;
        case Document(entries) =>
          var schedules := if entries.None? then [] else entries.value;
          var oldDigest: Option<string> := None;
          if hash.HashText? {
            oldDigest := Some(Strip(hash.text));
          }
          var valid := if oldDigest.Some? then oldDigest.value == digest else false;
          if writeHash && writable {
            hash := HashText(digest);
          }
          r := Loaded(schedules, valid);
      }
    }
  }

  /** `get_job_sched`: load the entries and look one up; `None` where it
      raises. */
  function GetJobSched(file: ScheduleFile, h: HashFile, digest: Digest, kind: string, name: string): (r: Option<Entry>)
    ensures file.Unreadable? || file.NotAnObject? ==> r.None?
    ensures file.Document? && r.Some? ==>
      var entries := if file.schedules.None? then [] else file.schedules.value;
      r.value in entries && MatchesJob(r.value, kind, name)
    ensures file.Document? ==>
      var entries := if file.schedules.None? then [] else file.schedules.value;
      && (r.Some? <==> exists e :: e in entries && MatchesJob(e, kind, name))
      && (r.Some? ==> r.value == entries[FirstMatch(entries, kind, name).value])
      && (r.Some? ==> forall j :: 0 <= j < FirstMatch(entries, kind, name).value ==> !MatchesJob(entries[j], kind, name))
  {
    match LoadSpec(file, h, false, digest, false).0
    case LoadRaised => None
    case Loaded(schedules, _) =>
      match FirstMatch(schedules, kind, name)
      case None => None
      case Some(i) => Some(schedules[i])
  }

  lemma {:induction false} TrimRightNoSpace(s: string)
    requires HasNoSpace(s)
    ensures TrimRight(s) == s
  {
    if s != [] {
      assert !IsSpace(s[|s| - 1]);
    }
  }

  lemma StripNoSpace(s: string)
    requires HasNoSpace(s)
    ensures Strip(s) == s
  {
    if s != [] {
      TrimLeftNoSpace(s);
    }
    TrimRightNoSpace(s);
  }

  /** A load that writes the hash, followed by a load of the unchanged file,
      finds the hash valid: a hex digest has no whitespace to strip. */
  lemma HashRoundTrip(entries: Option<seq<Entry>>, h: HashFile, digest: Digest, writeAgain: bool, writable: bool)
    ensures var first := LoadSpec(Document(entries), h, true, digest, true);
      var second := LoadSpec(Document(entries), first.1, writeAgain, digest, writable);
      second.0.Loaded? && second.0.validHash
  {
    assert HasNoSpace(digest) by {
      forall i | 0 <= i < |digest| ensures !IsSpace(digest[i]) {
        assert IsHexDigit(digest[i]);
      }
    }
    StripNoSpace(digest);
  }

  /** A schedule whose digest differs from the one the hash file was last
      written with loads with `valid_hash` False, and so does a load with no
      readable hash file. */
  lemma ChangedScheduleInvalid(entries: Option<seq<Entry>>, changed: Option<seq<Entry>>, h: HashFile,
                               written: Digest, digest: Digest, writeHash: bool, writable: bool)
    requires written != digest
    ensures var first := LoadSpec(Document(entries), h, true, written, true);
      var second := LoadSpec(Document(changed), first.1, writeHash, digest, writable);
      second.0.Loaded? && !second.0.validHash
    ensures !h.HashText? ==> LoadSpec(Document(changed), h, writeHash, digest, writable).0 == Loaded(
      if changed.None? then [] else changed.value, false)
  {
    assert HasNoSpace(written) by {
      forall i | 0 <= i < |written| ensures !IsSpace(written[i]) {
        assert IsHexDigit(written[i]);
      }
    }
    StripNoSpace(written);
  }

  /** Index of the last occurrence of `c`, or -1. */
  function LastIndex(s: string, c: char): (i: int)
    ensures -1 <= i < |s|
    ensures i >= 0 ==> s[i] == c
    ensures forall j :: i < j < |s| ==> s[j] != c
  {
    if s == [] then -1
    else if s[|s| - 1] == c then |s| - 1
    else LastIndex(s[..|s| - 1], c)
  }

  predicate AllOf(s: string, c: char) {
    forall i :: 0 <= i < |s| ==> s[i] == c
  }

  /** `s.rstrip(c)`. */
  function TrimTrailing(s: string, c: char): (r: string)
    ensures |r| <= |s| && r == s[..|r|]
    ensures r == [] || r[|r| - 1] != c
  {
    if s != [] && s[|s| - 1] == c then TrimTrailing(s[..|s| - 1], c) else s
  }

  /** `os.path.basename`: what follows the last slash. */
  function Basename(p: string): (b: string)
    ensures '/' !in b
  {
    p[LastIndex(p, '/') + 1..]
  }

  /** `os.path.dirname`: up to the last slash, trailing slashes dropped
      unless it is all slashes. */
  function Dirname(p: string): string {
    var head := p[..LastIndex(p, '/') + 1];
    if head != [] && !AllOf(head, '/') then TrimTrailing(head, '/') else head
  }

  /** The root `os.path.splitext` leaves: the name up to its last dot, unless
      only dots precede that dot (a leading-dot name has no extension). */
  function Root(b: string): (r: string)
    ensures |r| <= |b| && r == b[..|r|]
  {
    var k := LastIndex(b, '.');
    if k >= 0 && !AllOf(b[..k], '.') then b[..k] else b
  }

  /** `os.path.join(a, b)` for a `b` that does not start with a slash. */
  function Join(a: string, b: string): string {
    if a == [] || a[|a| - 1] == '/' then a + b else a + "/" + b
  }

  /** The hash file's path: the schedule file's directory, and its name with
      the extension replaced by ".hash". */
  function HashPath(scheduleFile: string): string {
    Join(Dirname(scheduleFile), Root(Basename(scheduleFile)) + ".hash")
  }

  lemma {:induction false} LastIndexAppend(x: string, y: string, c: char)
    requires c !in y
    ensures LastIndex(x + y, c) == LastIndex(x, c)
    decreases |y|
  {
    if y != [] {
      assert (x + y)[..|x + y| - 1] == x + y[..|y| - 1];
      assert (x + y)[|x + y| - 1] == y[|y| - 1];
      LastIndexAppend(x, y[..|y| - 1], c);
    } else {
      assert x + y == x;
    }
  }

  /** A directory name is empty, all slashes, or ends in something else. */
  lemma DirnameShape(p: string)
    ensures var d := Dirname(p); d == [] || AllOf(d, '/') || d[|d| - 1] != '/'
  {
  }

  /** The name part of `Join(a, b)` is `b`, and its directory part is `a`
      again when `a` is itself a directory name. */
  lemma JoinParts(a: string, b: string)
    requires '/' !in b
    requires a == [] || AllOf(a, '/') || a[|a| - 1] != '/'
    ensures Basename(Join(a, b)) == b
    ensures Dirname(Join(a, b)) == a
  {
    if a == [] {
      JoinEmpty(b);
    } else if a[|a| - 1] == '/' {
      JoinAfterSlash(a, b);
    } else {
      JoinAddsSlash(a, b);
    }
  }

  lemma JoinEmpty(b: string)
    requires '/' !in b
    ensures Basename(Join([], b)) == b && Dirname(Join([], b)) == []
  {
    assert Join([], b) == [] + b;
    LastIndexAppend([], b, '/');
  }

  lemma JoinAfterSlash(a: string, b: string)
    requires '/' !in b && AllOf(a, '/') && a != []
    ensures Basename(Join(a, b)) == b && Dirname(Join(a, b)) == a
  {
    var j := Join(a, b);
    assert j == a + b;
    LastIndexAppend(a, b, '/');
    assert j[..|a|] == a;
  }

  lemma JoinAddsSlash(a: string, b: string)
    requires '/' !in b && a != [] && a[|a| - 1] != '/'
    ensures Basename(Join(a, b)) == b && Dirname(Join(a, b)) == a
  {
    var j := Join(a, b);
    var head := a + "/";
    assert j == head + b;
    LastIndexAppend(head, b, '/');
    assert LastIndex(head, '/') == |a|;
    assert j[..|a| + 1] == head;
    assert !AllOf(head, '/') by {
      assert head[|a| - 1] != '/';
    }
    assert head[..|a|] == a;
    assert TrimTrailing(head, '/') == TrimTrailing(a, '/');
  }

  /** The hash file lies in the schedule file's directory and is named after
      the schedule file's root with ".hash" appended. */
  lemma HashPathParts(scheduleFile: string)
    ensures Dirname(HashPath(scheduleFile)) == Dirname(scheduleFile)
    ensures Basename(HashPath(scheduleFile)) == Root(Basename(scheduleFile)) + ".hash"
  {
    var b := Root(Basename(scheduleFile)) + ".hash";
    assert '/' !in b by {
      var base := Basename(scheduleFile);
      var r := Root(base);
      assert forall i :: 0 <= i < |r| ==> r[i] == base[i];
    }
    DirnameShape(scheduleFile);
    JoinParts(Dirname(scheduleFile), b);
  }

  /** `splitext` drops exactly the last extension of a name that has one. */
  lemma RootOfExtension(stem: string, ext: string)
    requires '.' !in ext && !AllOf(stem, '.')
    ensures Root(stem + "." + ext) == stem
  {
    var b := stem + "." + ext;
    assert b == (stem + ".") + ext;
    LastIndexAppend(stem + ".", ext, '.');
    assert LastIndex(stem + ".", '.') == |stem|;
    assert b[..|stem|] == stem;
  }

  /** A name without a dot has no extension. */
  lemma RootWithoutDot(b: string)
    requires '.' !in b
    ensures Root(b) == b
  {
  }

  /** The bounds of the IB window as `check_ib_valid_time` writes them. */
  const IB_START: string := "20:30"
  const IB_END: string := "21:30"

  lemma IbBounds()
    ensures Match24(IB_START) == Some(20 * 60 + 30)
    ensures Match24(IB_END) == Some(21 * 60 + 30)
  {
    HourMinute24(20, 30);
    HourMinute24(21, 30);
    TwoDigitsText(20, '2', '0');
    TwoDigitsText(21, '2', '1');
    TwoDigitsText(30, '3', '0');
    assert IB_START == TwoDigits(20) + ":" + TwoDigits(30);
    assert IB_END == TwoDigits(21) + ":" + TwoDigits(30);
  }

  lemma TwoDigitsText(n: nat, tens: char, ones: char)
    requires n < 100 && IsDigit(tens) && IsDigit(ones)
    requires DigitValue(tens) * 10 + DigitValue(ones) == n
    ensures TwoDigits(n) == [tens, ones]
  {
  }

  /** "HH:MM" is read by `strptime(s, "%H:%M")` as written. */
  lemma HourMinute24(hour: nat, minute: nat)
    requires hour <= 23 && minute <= 59
    ensures Match24(TwoDigits(hour) + ":" + TwoDigits(minute)) == Some(hour * 60 + minute)
  {
    var h, m := TwoDigits(hour), TwoDigits(minute);
    var s := h + ":" + m;
    ColonAfterDigits(h, m);
    assert s[..2] == h;
    assert s[3..] == m;
    FieldOf(hour, 0, 23);
    FieldOf(minute, 0, 59);
  }

  /** `check_ib_valid_time()` at instant `now`: true at or before 20:30 and at
      or after 21:30 (the parses of its two literals cannot fail). */
  function CheckIbValidTime(now: int): bool {
    match (Match24(IB_START), Match24(IB_END))
    case (Some(start), Some(end)) => MinuteUs(start) >= TimeOfDay(now) || TimeOfDay(now) >= MinuteUs(end)
    case _ => false
  }

  /** The instants refused are exactly those strictly between 20:30 and
      21:30. */
  lemma IbValidTime(now: int)
    ensures CheckIbValidTime(now) <==> !(MinuteUs(1230) < TimeOfDay(now) < MinuteUs(1290))
  {
    IbBounds();
  }

  /** `line.split(None, 1)` when it gives two parts: the first word, and the
      rest of the line from the next word on (trailing whitespace kept). */
  function SplitOnce(line: string): Option<(string, string)> {
    var t := TrimLeft(line);
    if t == [] then None
    else
      var k := TokenLen(t);
      var rest := TrimLeft(t[k..]);
      if rest == [] then None else Some((t[..k], rest))
  }

  /** A `ps -e -o pid,comm` line that names the process exactly. */
  predicate Names(line: string, name: string) {
    SplitOnce(line).Some? && SplitOnce(line).value.1 == name
  }

  /** Index of the first line naming the process. */
  function FirstNaming(lines: seq<string>, name: string): (r: Option<nat>)
    ensures r.Some? ==> r.value < |lines| && Names(lines[r.value], name)
    ensures r.Some? ==> forall j :: 0 <= j < r.value ==> !Names(lines[j], name)
    ensures r.None? ==> forall j :: 0 <= j < |lines| ==> !Names(lines[j], name)
    decreases |lines|
  {
    if lines == [] then None
    else if Names(lines[0], name) then Some(0)
    else
      match FirstNaming(lines[1..], name)
      case None => None
      case Some(i) => Some(i + 1)
  }

  /** `list_and_kill_process(name)` over the lines of `ps` output: kill the
      pid of the first line naming the process and stop; `killed` is that
      pid's text, so at most one process is killed. */
  method ListAndKillProcess(lines: seq<string>, name: string) returns (killed: Option<string>)
    ensures killed.Some? <==> FirstNaming(lines, name).Some?
    ensures killed.Some? ==> killed.value == SplitOnce(lines[FirstNaming(lines, name).value]).value.0
  {
    var i := 0;
    while i < |lines|
      invariant 0 <= i <= |lines|
      invariant forall j :: 0 <= j < i ==> !Names(lines[j], name)
      decreases |lines| - i
    {
      var parts := SplitOnce(lines[i]);
      if parts.Some? && parts.value.1 == name {
        return Some(parts.value.0);
      }
      i := i + 1;
    }
    return None;
  }

  predicate AllSpace(s: string) {
    forall i :: 0 <= i < |s| ==> IsSpace(s[i])
  }

  lemma {:induction false} TrimLeftSpaces(pad: string, s: string)
    requires AllSpace(pad) && s != [] && !IsSpace(s[0])
    ensures TrimLeft(pad + s) == s
    decreases |pad|
  {
    if pad == [] {
      assert pad + s == s;
    } else {
      assert (pad + s)[1..] == pad[1..] + s;
      TrimLeftSpaces(pad[1..], s);
    }
  }

  /** A `ps` line, right-aligned pid then command, splits into that pid and
      that command when the command does not start with whitespace. */
  lemma PsLineSplits(pad: string, pid: string, command: string)
    requires AllSpace(pad) && pid != [] && HasNoSpace(pid)
    requires command != [] && !IsSpace(command[0])
    ensures SplitOnce(pad + pid + " " + command) == Some((pid, command))
  {
    var t := pid + " " + command;
    assert pad + pid + " " + command == pad + t;
    TrimLeftSpaces(pad, t);
    TokenLenOf(pid, " " + command);
    assert t[..|pid|] == pid;
    assert t[|pid|..] == " " + command;
    TrimLeftSpaces(" ", command);
  }
}
