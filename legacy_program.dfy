/** The first program supervisor, `src/program.py`: it keeps the handle of
    the process it spawned and polls it, restarting the program while retries
    remain. Spawning is an input: the pid of the new process, or `None` when
    opening the output file or `Popen` raised. */
module LegacyProgram {
  import opened PyStr
  import opened Job
  import opened Supervisor

  /** What one pass of the loop finds: the process still running (`poll()`
      is `None`), or exited, with what a restart's spawn would give. */
  datatype Poll = Alive | Exited(spawn: Option<nat>)

  /** The program's state: its process handle (by pid), its retry counter,
      the pids it has launched, how many monitor threads it has started, and
      its monitor loop. */
  datatype LegacyState = LegacyState(process: Option<nat>, retries: int, launches: seq<nat>, monitors: nat, loop: Loop)

  /** `start()`: a successful spawn replaces the handle and, with
      `keep_alive`, starts one more monitor thread; a failed one only logs. */
  function StartSpec(keepAlive: bool, s: LegacyState, spawn: Option<nat>): LegacyState {
    match spawn
    case None => s
    case Some(pid) =>
      s.(process := Some(pid), launches := s.launches + [pid],
         monitors := if keepAlive then s.monitors + 1 else s.monitors)
  }

  /** One pass of `monitor()` after its sleep. Polling with no handle raises. */
  function PollSpec(keepAlive: bool, maxRetries: int, s: LegacyState, p: Poll): LegacyState {
    if s.loop != Running then s
    else if s.process.None? then s.(loop := Crashed)
    else
      match p
      case Alive => s
      case Exited(spawn) =>
        var s1 := s.(retries := s.retries + 1);
        if s1.retries <= maxRetries then StartSpec(keepAlive, s1, spawn) else s1.(loop := Ended)
  }

  /** Successive passes of the loop. */
  function PollAll(keepAlive: bool, maxRetries: int, s: LegacyState, polls: seq<Poll>): LegacyState
    decreases |polls|
  {
    if polls == [] then s else PollAll(keepAlive, maxRetries, PollSpec(keepAlive, maxRetries, s, polls[0]), polls[1..])
  }

  /** How many of the polls would spawn successfully if asked to. */
  function SpawnCount(polls: seq<Poll>): nat
    decreases |polls|
  {
    if polls == [] then 0
    else SpawnCount(polls[1..]) + (if polls[0].Exited? && polls[0].spawn.Some? then 1 else 0)
  }

  /** A configuration value as `config.get(key, default)` returns it: the
      key absent, a value that is not a string (JSON null or a number), or a
      string. */
  datatype Setting = Absent | NotText | Text(text: string)

  /** What `parse_frequency` receives for "check_alive_freq", "1 m" when the
      key is absent. */
  function FreqText(v: Setting): Option<string> {
    match v
    case Absent => Some("1 m")
    case NotText => None
    case Text(t) => Some(t)
  }

  /** The polling interval `__init__` computes as written, or `None` where it
      raises: `parse_frequency` runs before `self.logger` is set, so the
      handler's `self.logger.error` raises `AttributeError` out of
      `__init__` on every input whose parse raises. */
  function InitInterval(v: Setting): Option<int> {
    if FrequencyRaises(FreqText(v)) then None else Some(ParseFrequency(FreqText(v)))
  }

  /** As written, "5m" (one word), "x m" (no integer) and a non-string value
      make `__init__` raise, where a logger in place would give the default;
      "5 x" only falls through and gives the default. */
  lemma InitAsWrittenRaises()
    ensures InitInterval(Text("5m")) == None && ParseFrequency(FreqText(Text("5m"))) == DEFAULT_INTERVAL
    ensures InitInterval(Text("x m")) == None && ParseFrequency(FreqText(Text("x m"))) == DEFAULT_INTERVAL
    ensures InitInterval(NotText) == None && ParseFrequency(FreqText(NotText)) == DEFAULT_INTERVAL
    ensures InitInterval(Text("5 x")) == Some(DEFAULT_INTERVAL)
  {
    OneWordRaises();
    NonIntegerRaises();
    UnknownUnitFallsThrough();
  }

  lemma OneWordRaises()
    ensures FrequencyRaises(Some("5m")) && ParseFrequency(Some("5m")) == DEFAULT_INTERVAL
  {
    assert HasNoSpace("5m") by { assert "5m"[0] == '5' && "5m"[1] == 'm'; }
    SplitWsOne("5m");
  }

  lemma NonIntegerRaises()
    ensures FrequencyRaises(Some("x m")) && ParseFrequency(Some("x m")) == DEFAULT_INTERVAL
  {
    assert HasNoSpace("x") && HasNoSpace("m");
    SplitWsTwo("x", "m");
    assert "x" + " " + "m" == "x m";
    assert TrimLeft("x") == "x" && TrimRight("x") == "x";
    assert !AllDigits("x") by { assert !IsDigit("x"[0]); }
  }

  lemma UnknownUnitFallsThrough()
    ensures !FrequencyRaises(Some("5 x")) && ParseFrequency(Some("5 x")) == DEFAULT_INTERVAL
  {
    assert HasNoSpace("5") && HasNoSpace("x");
    SplitWsTwo("5", "x");
    assert "5" + " " + "x" == "5 x";
    assert AllDigits("5") by { assert IsDigit("5"[0]); }
    PyIntOfDigits("5");
    assert LowerChar('x') == 'x';
  }

  /** With the logger set up first, the interval is the parsed frequency:
      the default wherever the code as written raises, the as-written value
      everywhere else, and one minute when the key is absent. */
  lemma CorrectedInterval(v: Setting)
    ensures InitInterval(v).None? ==> ParseFrequency(FreqText(v)) == DEFAULT_INTERVAL
    ensures InitInterval(v).Some? ==> InitInterval(v).value == ParseFrequency(FreqText(v))
    ensures v.Absent? ==> ParseFrequency(FreqText(v)) == 60 && InitInterval(v).Some?
  {
    ParseFrequencyDefault(FreqText(v));
    if v.Absent? {
      AbsentIsOneMinute();
    }
  }

  lemma AbsentIsOneMinute()
    ensures !FrequencyRaises(Some("1 m")) && ParseFrequency(Some("1 m")) == 60
  {
    DefaultCheckAliveFrequency();
    assert HasNoSpace("1") && HasNoSpace("m");
    SplitWsTwo("1", "m");
    assert "1" + " " + "m" == "1 m";
    assert AllDigits("1") by { assert IsDigit("1"[0]); }
    PyIntOfDigits("1");
  }

  class Program {
    const keepAlive: bool
    const maxRetries: int
    const checkAliveFreq: int
    var process: Option<nat>
    var retries: int
    var launches: seq<nat>
    var monitors: nat
    var loop: Loop

    function State(): LegacyState
      reads this
    {
      LegacyState(process, retries, launches, monitors, loop)
    }

    /** `__init__` with the logger set up before the frequency is parsed:
        no process yet, no retries, and the parsed "check_alive_freq" as the
        polling interval. */
    constructor(keepAlive: bool, maxRetries: int, checkAliveFreq: Setting)
      ensures this.keepAlive == keepAlive && this.maxRetries == maxRetries
      ensures this.checkAliveFreq == ParseFrequency(FreqText(checkAliveFreq))
      ensures State() == LegacyState(None, 0, [], 0, Running)
    {
      this.keepAlive := keepAlive;
      this.maxRetries := maxRetries;
      this.checkAliveFreq := ParseFrequency(FreqText(checkAliveFreq));
      this.process := None;
      this.retries := 0;
      this.launches := [];
      this.monitors := 0;
      this.loop := Running;
    }

    /** `Program(config)` as written: `null` where `__init__` raises. */
    static method Create(keepAlive: bool, maxRetries: int, checkAliveFreq: Setting) returns (p: Program?)
      ensures p == null <==> InitInterval(checkAliveFreq).None?
      ensures p != null ==>
        && fresh(p) && p.keepAlive == keepAlive && p.maxRetries == maxRetries
        && p.checkAliveFreq == InitInterval(checkAliveFreq).value
        && p.State() == LegacyState(None, 0, [], 0, Running)
    {
      if FrequencyRaises(FreqText(checkAliveFreq)) {
        return null;
      }
      p := new Program(keepAlive, maxRetries, checkAliveFreq);
    }

    method Start(spawn: Option<nat>)
      modifies this
      ensures State() == StartSpec(keepAlive, old(State()), spawn)
    {
      if spawn.Some? {
        process := spawn;
        launches := launches + [spawn.value];
        if keepAlive {
          monitors := monitors + 1;
        }
      }
    }

    method MonitorTick(p: Poll)
      modifies this
      ensures State() == PollSpec(keepAlive, maxRetries, old(State()), p)
    {
      if loop != Running {
        return;
      }
      if process.None? {
        loop := Crashed;
        return;
      }
      if p.Exited? {
        retries := retries + 1;
        if retries <= maxRetries {
          Start(p.spawn);
        } else {
          loop := Ended;
        }
      }
    }
  }

  /** A pass never lowers the retry counter and never forgets a launch; a
      pass that finds the process running changes nothing. */
  lemma PollMonotone(keepAlive: bool, maxRetries: int, s: LegacyState, p: Poll)
    ensures var r := PollSpec(keepAlive, maxRetries, s, p);
      && r.retries >= s.retries
      && |r.launches| >= |s.launches| && r.launches[..|s.launches|] == s.launches
    ensures p.Alive? && s.process.Some? ==> PollSpec(keepAlive, maxRetries, s, p) == s
  {
    var r := PollSpec(keepAlive, maxRetries, s, p);
    assert r.launches[..|s.launches|] == s.launches;
  }

  /** Over any number of passes the retry counter never decreases and the
      launches only grow. */
  lemma {:induction false} RetriesNeverDecrease(keepAlive: bool, maxRetries: int, s: LegacyState, polls: seq<Poll>)
    ensures var t := PollAll(keepAlive, maxRetries, s, polls);
      t.retries >= s.retries && |t.launches| >= |s.launches| && t.launches[..|s.launches|] == s.launches
    decreases |polls|
  {
    if polls != [] {
      var next := PollSpec(keepAlive, maxRetries, s, polls[0]);
      PollMonotone(keepAlive, maxRetries, s, polls[0]);
      RetriesNeverDecrease(keepAlive, maxRetries, next, polls[1..]);
      var t := PollAll(keepAlive, maxRetries, s, polls);
      assert t.launches[..|s.launches|] == t.launches[..|next.launches|][..|s.launches|];
    }
  }

  /** Once the loop has ended or crashed, later passes change nothing. */
  lemma {:induction false} StoppedLoopIsFinal(keepAlive: bool, maxRetries: int, s: LegacyState, polls: seq<Poll>)
    requires s.loop != Running
    ensures PollAll(keepAlive, maxRetries, s, polls) == s
    decreases |polls|
  {
    if polls != [] {
      StoppedLoopIsFinal(keepAlive, maxRetries, s, polls[1..]);
    }
  }

  /** The retry policy: a process that is found exited on every pass, from
      `retries` = r <= `max_retries`, is restarted on the first
      `max_retries - r` passes (a failed spawn keeps the old handle, which
      stays exited) and the loop ends on the pass after; every successful
      spawn is a launch. */
  lemma {:induction false} LegacyRetryPolicy(keepAlive: bool, maxRetries: int, s: LegacyState, polls: seq<Poll>)
    requires s.loop == Running && s.process.Some? && 0 <= s.retries <= maxRetries
    requires |polls| == maxRetries - s.retries + 1
    requires forall i :: 0 <= i < |polls| ==> polls[i].Exited?
    ensures var t := PollAll(keepAlive, maxRetries, s, polls);
      && t.loop == Ended && t.retries == maxRetries + 1
      && |t.launches| == |s.launches| + SpawnCount(polls[..|polls| - 1])
    decreases |polls|
  {
    var next := PollSpec(keepAlive, maxRetries, s, polls[0]);
    if s.retries == maxRetries {
      assert polls[1..] == [];
      assert polls[..|polls| - 1] == [];
    } else {
      assert forall i :: 0 <= i < |polls[1..]| ==> polls[1..][i] == polls[i + 1];
      LegacyRetryPolicy(keepAlive, maxRetries, next, polls[1..]);
      assert polls[..|polls| - 1][1..] == polls[1..][..|polls[1..]| - 1];
    }
  }
}
