/** The life of the cycle counter: a child process and two pipes, opened, used and released on every path
    through a measured workload, whichever step fails. */
module CounterLifecycle {
  import opened Wrappers
  import opened BenchmarkText

  // ---- text --------------------------------------------------------------------------------

  predicate All(s: string, cutset: set<char>) {
    forall i :: 0 <= i < |s| ==> s[i] in cutset
  }

  function TrimLeft(s: string, cutset: set<char>): string {
    if s != "" && s[0] in cutset then TrimLeft(s[1..], cutset) else s
  }

  function TrimRight(s: string, cutset: set<char>): string {
    if s != "" && s[|s| - 1] in cutset then TrimRight(s[..|s| - 1], cutset) else s
  }

  /** Go's strings.Trim. */
  function Trim(s: string, cutset: set<char>): string {
    TrimRight(TrimLeft(s, cutset), cutset)
  }

  /** Trimming on the left cuts off padding. */
  lemma {:induction false} TrimLeftRest(s: string, cutset: set<char>) returns (n: nat)
    ensures n <= |s| && TrimLeft(s, cutset) == s[n..] && All(s[..n], cutset)
  {
    if s != "" && s[0] in cutset {
      var k := TrimLeftRest(s[1..], cutset);
      n := k + 1;
      assert s[1..][k..] == s[n..] && s[..n] == [s[0]] + s[1..][..k];
    } else {
      n := 0;
    }
  }

  lemma {:induction false} TrimRightRest(s: string, cutset: set<char>) returns (n: nat)
    ensures n <= |s| && TrimRight(s, cutset) == s[..n] && All(s[n..], cutset)
  {
    if s != "" && s[|s| - 1] in cutset {
      var rest := s[..|s| - 1];
      n := TrimRightRest(rest, cutset);
      assert rest[..n] == s[..n] && s[n..] == rest[n..] + [s[|s| - 1]];
    } else {
      n := |s|;
    }
  }

  lemma {:induction false} TrimLeftAll(pad: string, s: string, cutset: set<char>)
    requires All(pad, cutset) && (s == "" || s[0] !in cutset)
    ensures TrimLeft(pad + s, cutset) == s
  {
    if pad == "" {
      assert pad + s == s;
    } else {
      assert (pad + s)[1..] == pad[1..] + s;
      TrimLeftAll(pad[1..], s, cutset);
    }
  }

  lemma {:induction false} TrimRightAll(s: string, pad: string, cutset: set<char>)
    requires All(pad, cutset) && (s == "" || s[|s| - 1] !in cutset)
    ensures TrimRight(s + pad, cutset) == s
  {
    if pad == "" {
      assert s + pad == s;
    } else {
      assert (s + pad)[..|s + pad| - 1] == s + pad[..|pad| - 1];
      TrimRightAll(s, pad[..|pad| - 1], cutset);
    }
  }

  /** The text is a word between paddings. */
  ghost predicate Padded(text: string, word: string, cutset: set<char>) {
    exists before, after :: text == before + word + after && All(before, cutset) && All(after, cutset)
  }

  lemma TrimmedIsPadded(text: string, word: string, cutset: set<char>)
    requires Trim(text, cutset) == word
    ensures Padded(text, word, cutset)
  {
    hide All, TrimLeft, TrimRight;
    var n := TrimLeftRest(text, cutset);
    var rest := text[n..];
    var k := TrimRightRest(rest, cutset);
    assert text == text[..n] + word + rest[k..];
  }

  lemma PaddedIsTrimmed(before: string, word: string, after: string, cutset: set<char>)
    requires word != "" && word[0] !in cutset && word[|word| - 1] !in cutset
    requires All(before, cutset) && All(after, cutset)
    ensures Trim(before + word + after, cutset) == word
  {
    assert before + word + after == before + (word + after);
    TrimLeftAll(before, word + after, cutset);
    TrimRightAll(word, after, cutset);
  }

  /** Trimming leaves a word exactly when the text is that word between paddings. */
  lemma TrimsToWord(text: string, word: string, cutset: set<char>)
    requires word != "" && word[0] !in cutset && word[|word| - 1] !in cutset
    ensures Trim(text, cutset) == word <==> Padded(text, word, cutset)
  {
    hide All, Trim;
    if Trim(text, cutset) == word {
      TrimmedIsPadded(text, word, cutset);
    }
    if Padded(text, word, cutset) {
      var before, after :| text == before + word + after && All(before, cutset) && All(after, cutset);
      PaddedIsTrimmed(before, word, after, cutset);
    }
  }

  const ACK_PADDING: set<char> := {'\0', ' ', '\t', '\r', '\n'}
  const SPACE: set<char> := {' ', '\t', '\r', '\n', 11 as char, 12 as char}

  // ---- what perf printed -------------------------------------------------------------------

  /** Go's ParseUint in base ten and 64 bits. */
  function ParseUint(s: string): Option<nat> {
    if IsNumber(s) && Value(s) < 0x1_0000_0000_0000_0000 then Some(Value(s)) else None
  }

  predicate IsCyclesLine(line: string) {
    var fields := Split(line, ',');
    |fields| >= 3 && "cycles" <= Trim(fields[2], SPACE)
  }

  /** The number on the first cycles line from line `n` on; none without such a line or such a number. */
  function CyclesFrom(lines: seq<string>, n: nat): Option<nat>
    requires n <= |lines|
    decreases |lines| - n
  {
    if n == |lines| then None
    else if IsCyclesLine(lines[n]) then ParseUint(Trim(Split(lines[n], ',')[0], SPACE))
    else CyclesFrom(lines, n + 1)
  }

  function PerfCycles(output: string): Option<nat> {
    CyclesFrom(Split(output, '\n'), 0)
  }

  method ParsePerfCycles(output: string) returns (cycles: Option<nat>)
    ensures cycles == PerfCycles(output)
  {
    var lines := Split(output, '\n');
    for n := 0 to |lines|
      invariant CyclesFrom(lines, 0) == CyclesFrom(lines, n)
    {
      if IsCyclesLine(lines[n]) {
        return ParseUint(Trim(Split(lines[n], ',')[0], SPACE));
      }
    }
    return None;
  }

  /** Only the first cycles line counts: other lines before it and anything after it change nothing. */
  lemma {:induction false} FirstCyclesLineCounts(lines: seq<string>, n: nat, first: nat)
    requires n <= first < |lines| && IsCyclesLine(lines[first]) && forall k :: n <= k < first ==> !IsCyclesLine(lines[k])
    ensures CyclesFrom(lines, n) == ParseUint(Trim(Split(lines[first], ',')[0], SPACE))
    decreases first - n
  {
    if n < first {
      FirstCyclesLineCounts(lines, n + 1, first);
    }
  }

  /** The text consists of these parts, separated by a character that none of them has. */
  ghost predicate Parts(text: string, separator: char, parts: seq<string>) {
    parts != [] && text == Join(parts, separator) && forall i :: 0 <= i < |parts| ==> separator !in parts[i]
  }

  /** The text begins with a word, after white space. */
  ghost predicate BeginsWith(text: string, word: string) {
    exists before, after :: text == before + word + after && All(before, SPACE)
  }

  /** A line of at least three fields separated by commas whose third begins with the event name. */
  ghost predicate CyclesLine(line: string) {
    exists fields :: Parts(line, ',', fields) && |fields| >= 3 && BeginsWith(fields[2], "cycles")
  }

  lemma AllFrom(text: string, k: nat)
    requires k <= |text| && All(text[k..], SPACE)
    ensures forall i :: k <= i < |text| ==> text[i] in SPACE
  {
    forall i | k <= i < |text|
      ensures text[i] in SPACE
    {
      assert text[k..][i - k] == text[i];
    }
  }

  lemma TrimmedBegins(text: string, word: string)
    requires word != "" && word[0] !in SPACE && word[|word| - 1] !in SPACE
    ensures word <= Trim(text, SPACE) <==> BeginsWith(text, word)
  {
    hide TrimLeft, TrimRight;
    if word <= Trim(text, SPACE) {
      var n := TrimLeftRest(text, SPACE);
      var k := TrimRightRest(text[n..], SPACE);
      assert text == text[..n] + word + text[n + |word|..];
    }
    if before, after :| text == before + word + after && All(before, SPACE) {
      assert text == before + (word + after);
      TrimLeftAll(before, word + after, SPACE);
      var k := TrimRightRest(word + after, SPACE);
      AllFrom(word + after, k);
      assert (word + after)[|word| - 1] == word[|word| - 1];
      assert word <= (word + after)[..k];
    }
  }

  lemma SplitIs(text: string, separator: char, parts: seq<string>)
    requires Parts(text, separator, parts)
    ensures Split(text, separator) == parts
  {
    SplitJoin(parts, separator);
  }

  lemma CyclesLineIs(line: string)
    ensures IsCyclesLine(line) <==> CyclesLine(line)
  {
    hide Trim, BeginsWith;
    var fields := Split(line, ',');
    JoinSplit(line, ',');
    if |fields| >= 3 {
      TrimmedBegins(fields[2], "cycles");
    }
    if other :| Parts(line, ',', other) && |other| >= 3 && BeginsWith(other[2], "cycles") {
      SplitIs(line, ',', other);
    }
  }

  lemma {:induction false} SkipOtherLines(lines: seq<string>, n: nat, first: nat)
    requires n <= first <= |lines| && forall k :: n <= k < first ==> !CyclesLine(lines[k])
    ensures CyclesFrom(lines, n) == CyclesFrom(lines, first)
    decreases first - n
  {
    hide CyclesLine, IsCyclesLine;
    if n < first {
      CyclesLineIs(lines[n]);
      SkipOtherLines(lines, n + 1, first);
    }
  }

  lemma NumberOfField(field: string, n: nat)
    requires Padded(field, Numeral(n), SPACE)
    ensures ParseUint(Trim(field, SPACE)) == if n < 18446744073709551616 then Some(n) else None
  {
    var numeral := Numeral(n);
    assert IsDigit(numeral[0]) && IsDigit(numeral[|numeral| - 1]);
    TrimsToWord(field, numeral, SPACE);
    ValueOfNumeral(n);
  }

  /** White space is the blank and the control characters from the tab to the carriage return. */
  lemma SpaceIs(c: char)
    ensures c in SPACE <==> c == ' ' || '\t' <= c <= '\r'
  {
  }

  /** The text that perf writes: the first line whose third field names the event gives the number in its first field,
      if it fits 64 bits, whatever the other lines and fields are. */
  lemma CyclesOfText(output: string, lines: seq<string>, first: nat, fields: seq<string>, n: nat)
    requires Parts(output, '\n', lines) && first < |lines| && forall k :: 0 <= k < first ==> !CyclesLine(lines[k])
    requires Parts(lines[first], ',', fields) && |fields| >= 3 && BeginsWith(fields[2], "cycles")
    requires Padded(fields[0], Numeral(n), SPACE)
    ensures PerfCycles(output) == if n < 18446744073709551616 then Some(n) else None
  {
    SplitIs(output, '\n', lines);
    SplitIs(lines[first], ',', fields);
    assert CyclesLine(lines[first]);
    CyclesLineIs(lines[first]);
    hide CyclesLine, IsCyclesLine, BeginsWith, Padded, Parts, Trim, ParseUint;
    SkipOtherLines(lines, 0, first);
    NumberOfField(fields[0], n);
  }

  /** Without such a line there is no number. */
  lemma NoCyclesInText(output: string, lines: seq<string>)
    requires Parts(output, '\n', lines) && forall k :: 0 <= k < |lines| ==> !CyclesLine(lines[k])
    ensures PerfCycles(output) == None
  {
    SplitIs(output, '\n', lines);
    SkipOtherLines(lines, 0, |lines|);
  }

  // ---- resources ---------------------------------------------------------------------------

  datatype End = ControlReader | ControlWriter | AckReader | AckWriter

  /** One end of a pipe and how often it was closed. */
  class File {
    const end: End
    var closes: nat

    constructor (end: End)
      ensures this.end == end && closes == 0
    {
      this.end, closes := end, 0;
    }

    method Close()
      modifies this
      ensures closes == old(closes) + 1
    {
      closes := closes + 1;
    }
  }

  /** The perf process: whether it was started and how often it was waited for. */
  class Command {
    var started: bool
    var waits: nat

    constructor ()
      ensures !started && waits == 0
    {
      started, waits := false, 0;
    }

    method Start(fails: bool) returns (ok: bool)
      modifies this
      ensures ok == !fails && started == ok && waits == old(waits)
    {
      ok, started := !fails, !fails;
    }

    method Wait()
      requires started
      modifies this
      ensures waits == old(waits) + 1 && started == old(started)
    {
      waits := waits + 1;
    }
  }

  /** What comes back on the acknowledgement pipe. */
  datatype Reply = WriteFailed | ReadFailed | Line(text: string)

  predicate Acknowledged(reply: Reply) {
    reply.Line? && Trim(reply.text, ACK_PADDING) == "ack"
  }

  /** An acknowledgement is the word between zero bytes and white space. */
  lemma AcknowledgedIs(text: string)
    ensures Acknowledged(Line(text)) <==> Padded(text, "ack", {'\0', ' ', '\t', '\r', '\n'})
  {
    TrimsToWord(text, "ack", ACK_PADDING);
  }

  /** Everything the outside decides when a counter is stopped.  A signal error that only says the process is
      done already, and a wait error that only says the process was interrupted, are no failures. */
  datatype StopOutcome = StopOutcome(reply: Reply, signalFails: bool, waitFails: bool, output: string)

  /** The cycles of a counter that was stopped properly. */
  function Stopped(outcome: StopOutcome): Option<nat> {
    if Acknowledged(outcome.reply) && !outcome.signalFails && !outcome.waitFails then PerfCycles(outcome.output) else None
  }

  class CPUPerf {
    const command: Command
    const controlWriter: File
    const ackFile: File

    constructor (command: Command, controlWriter: File, ackFile: File)
      ensures this.command == command && this.controlWriter == controlWriter && this.ackFile == ackFile
    {
      this.command, this.controlWriter, this.ackFile := command, controlWriter, ackFile;
    }

    /** Running: the writing end of the control pipe and the reading end of the other are held, and nothing has
        been released yet. */
    ghost predicate Live()
      reads command, controlWriter, ackFile
    {
      && controlWriter.end == ControlWriter && ackFile.end == AckReader
      && command.started && command.waits == 0
      && controlWriter.closes == 0 && ackFile.closes == 0
    }

    /** Released, and nothing twice. */
    ghost predicate Released()
      reads command, controlWriter, ackFile
    {
      command.waits == 1 && controlWriter.closes == 1 && ackFile.closes == 1
    }

    method SendControl(reply: Reply) returns (ok: bool)
      ensures ok <==> Acknowledged(reply)
    {
      if reply.WriteFailed? {
        return false;
      }
      if reply.ReadFailed? {
        return false;
      }
      return Trim(reply.text, ACK_PADDING) == "ack";
    }

    method Enable(reply: Reply) returns (ok: bool)
      ensures ok <==> Acknowledged(reply)
    {
      ok := SendControl(reply);
    }

    /** Kills the process; the outcome of the kill and of the wait does not matter. */
    method Abort()
      requires Live()
      modifies command, controlWriter, ackFile
      ensures Released()
    {
      controlWriter.Close();
      command.Wait();
      ackFile.Close();
    }

    /** Disables and interrupts the counter.  Whatever fails, everything has been released afterwards. */
    method Stop(outcome: StopOutcome) returns (cycles: Option<nat>)
      requires Live()
      modifies command, controlWriter, ackFile
      ensures Released()
      ensures cycles == Stopped(outcome)
    {
      var disabled := SendControl(outcome.reply);
      if !disabled {
        Abort();
        return None;
      }
      command.Wait();
      controlWriter.Close();
      ackFile.Close();
      if outcome.signalFails {
        return None;
      }
      if outcome.waitFails {
        return None;
      }
      cycles := ParsePerfCycles(outcome.output);
    }
  }

  /** Every file that was opened is closed exactly once. */
  ghost predicate AllClosedOnce(files: set<File>)
    reads files
  {
    forall f <- files :: f.closes == 1
  }

  datatype OpenFaults = OpenFaults(controlPipe: bool, ackPipe: bool, start: bool)

  /** Opens the counter.  On failure everything opened so far is closed; on success the child's ends are
      closed and the counter is live. */
  method NewCPUPerf(faults: OpenFaults) returns (measurement: CPUPerf?, ghost files: set<File>, ghost command: Command?)
    ensures measurement == null <==> faults.controlPipe || faults.ackPipe || faults.start
    ensures fresh(files)
    ensures measurement == null ==> AllClosedOnce(files) && (command == null || !command.started)
    ensures measurement != null ==>
              && fresh(measurement) && measurement.Live() && fresh(measurement.command)
              && command == measurement.command && command.started && {measurement.controlWriter, measurement.ackFile} <= files
              && |files| == 4 && AllClosedOnce(files - {measurement.controlWriter, measurement.ackFile})
  {
    files, command := {}, null;
    if faults.controlPipe {
      return null, {}, null;
    }
    var controlReader := new File(ControlReader);
    var controlWriter := new File(ControlWriter);
    files := {controlReader, controlWriter};
    if faults.ackPipe {
      controlReader.Close();
      controlWriter.Close();
      return null, files, null;
    }
    var ackReader := new File(AckReader);
    var ackWriter := new File(AckWriter);
    files := files + {ackReader, ackWriter};
    var perf := new Command();
    command := perf;
    measurement := new CPUPerf(perf, controlWriter, ackReader);
    var ok := perf.Start(faults.start);
    if !ok {
      controlReader.Close();
      controlWriter.Close();
      ackReader.Close();
      ackWriter.Close();
      return null, files, command;
    }
    controlReader.Close();
    ackWriter.Close();
  }

  // ---- measured workloads ------------------------------------------------------------------

  /** Everything the outside decides in a measured workload. */
  datatype Outside = Outside(
    opening: OpenFaults, enableReply: Reply, subscribeFails: bool, writeReadyFails: bool, messagesFail: bool,
    stop: StopOutcome)

  /** After a workload the process was waited for exactly once, if it was started, and every pipe end that
      was opened was closed exactly once. */
  ghost predicate NothingLeft(files: set<File>, command: Command?)
    reads files, command
  {
    AllClosedOnce(files) && (command != null && command.started ==> command.waits == 1)
  }

  predicate Opens(outside: Outside) {
    !outside.opening.controlPipe && !outside.opening.ackPipe && !outside.opening.start
  }

  method BenchmarkPublisher(isWarmup: bool, outside: Outside)
    returns (cycles: Option<nat>, ok: bool, ghost files: set<File>, ghost command: Command?)
    ensures fresh(files) && NothingLeft(files, command)
    ensures isWarmup ==> ok == !outside.messagesFail && files == {} && command == null
    ensures !isWarmup ==> (ok <==> Opens(outside) && Acknowledged(outside.enableReply) && !outside.messagesFail
                                   && Stopped(outside.stop).Some?)
    ensures !isWarmup && ok ==> cycles == Stopped(outside.stop) && command != null && command.waits == 1 && |files| == 4
  {
    files, command, cycles := {}, null, None;
    if isWarmup {
      return None, !outside.messagesFail, {}, null;
    }
    var measurement;
    measurement, files, command := NewCPUPerf(outside.opening);
    if measurement == null {
      return None, false, files, command;
    }
    var enabled := measurement.Enable(outside.enableReply);
    if !enabled {
      measurement.Abort();
      return None, false, files, command;
    }
    if outside.messagesFail {
      measurement.Abort();
      return None, false, files, command;
    }
    cycles := measurement.Stop(outside.stop);
    ok := cycles.Some?;
  }

  method BenchmarkSubscriber(isWarmup: bool, outside: Outside)
    returns (cycles: Option<nat>, ok: bool, ghost files: set<File>, ghost command: Command?)
    ensures fresh(files) && NothingLeft(files, command)
    ensures isWarmup ==> files == {} && command == null
                         && ok == !(outside.subscribeFails || outside.writeReadyFails || outside.messagesFail)
    ensures !isWarmup ==> (ok <==> Opens(outside) && !outside.subscribeFails && Acknowledged(outside.enableReply)
                                   && !outside.writeReadyFails && !outside.messagesFail && Stopped(outside.stop).Some?)
    ensures !isWarmup && ok ==> cycles == Stopped(outside.stop) && command != null && command.waits == 1 && |files| == 4
  {
    files, command, cycles := {}, null, None;
    if isWarmup {
      return None, !(outside.subscribeFails || outside.writeReadyFails || outside.messagesFail), {}, null;
    }
    var measurement;
    measurement, files, command := NewCPUPerf(outside.opening);
    if measurement == null {
      return None, false, files, command;
    }
    if outside.subscribeFails {
      measurement.Abort();
      return None, false, files, command;
    }
    var enabled := measurement.Enable(outside.enableReply);
    if !enabled {
      measurement.Abort();
      return None, false, files, command;
    }
    if outside.writeReadyFails {
      measurement.Abort();
      return None, false, files, command;
    }
    if outside.messagesFail {
      measurement.Abort();
      return None, false, files, command;
    }
    cycles := measurement.Stop(outside.stop);
    ok := cycles.Some?;
  }
}
