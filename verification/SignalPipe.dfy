/** The signals as text on a pipe: one line each, consumed by exact match.  The pipe refines the queues of
    the protocol. */
module SignalPipe {
  import opened Protocol

  function Name(signal: Signal): string {
    match signal
    case Go => "GO"
    case Ready => "READY"
    case Done => "DONE"
    case Finish => "FINISH"
  }

  /** The text of a queue of signals. */
  function Encode(queue: seq<Signal>): string {
    if queue == [] then "" else Encode(queue[..|queue| - 1]) + Name(queue[|queue| - 1]) + "\n"
  }

  /** Length of the first line with its newline, or of everything if there is none. */
  function LineLength(text: string): (n: nat)
    ensures n <= |text|
  {
    if text == "" then 0 else if text[0] == '\n' then 1 else 1 + LineLength(text[1..])
  }

  lemma {:induction false} LineOf(line: string, rest: string)
    requires '\n' !in line
    ensures LineLength(line + "\n" + rest) == |line| + 1
  {
    if line != "" {
      assert (line + "\n" + rest)[1..] == line[1..] + "\n" + rest;
      LineOf(line[1..], rest);
    }
  }

  lemma NamesAreLines(a: Signal, b: Signal)
    ensures '\n' !in Name(a) && (Name(a) == Name(b) ==> a == b)
  {
  }

  lemma {:induction false} EncodeFirst(queue: seq<Signal>)
    requires queue != []
    ensures Encode(queue) == Name(queue[0]) + "\n" + Encode(queue[1..])
  {
    var n := |queue| - 1;
    if n == 0 {
      assert queue[..0] == [] && queue[1..] == [];
      assert "" + Name(queue[0]) + "\n" == Name(queue[0]) + "\n" + "";
    } else {
      EncodeFirst(queue[..n]);
      assert queue[..n][1..] == queue[1..][..n - 1];
      Regroup(Name(queue[0]) + "\n", Encode(queue[1..][..n - 1]), Name(queue[n]), "\n");
    }
  }

  lemma Regroup(a: string, b: string, c: string, d: string)
    ensures a + b + c + d == a + (b + c + d)
  {
  }

  class Pipe {
    var text: string

    constructor ()
      ensures Holds([])
    {
      text := "";
    }

    ghost predicate Holds(queue: seq<Signal>)
      reads this
    {
      text == Encode(queue)
    }

    /** Appends one line. */
    method WriteSignal(signal: Signal, ghost queue: seq<Signal>)
      requires Holds(queue)
      modifies this
      ensures Holds(queue + [signal])
      ensures text == old(text) + match signal
                                  case Go => "GO\n" case Ready => "READY\n" case Done => "DONE\n" case Finish => "FINISH\n"
    {
      text := text + Name(signal) + "\n";
      assert (queue + [signal])[..|queue|] == queue;
    }

    /** Takes one line, or all there is when the other end closed without finishing one, and compares it with
        what is expected, newline included.  A text without a newline is refused, whatever it says.  On the text
        of a queue the first signal is consumed, and accepted exactly when it is the expected one. */
    method ReadSignal(expected: Signal, ghost queue: seq<Signal>) returns (ok: bool)
      modifies this
      ensures ok <==> Begins(old(text), Name(expected) + "\n")
      ensures ok ==> text == old(text)[|Name(expected)| + 1..]
      ensures '\n' !in old(text) ==> text == ""
      ensures old(Holds(queue)) && queue != [] ==> Holds(queue[1..]) && (ok <==> queue[0] == expected)
    {
      QueueStart(queue, text, expected);
      ExpectedStart(text, expected);
      NoLine(text);
      var n := LineLength(text);
      var line := text[..n];
      text := text[n..];
      ok := line == Name(expected) + "\n";
    }
  }

  predicate Begins(text: string, start: string) {
    |start| <= |text| && text[..|start|] == start
  }

  lemma {:induction false} NoLine(text: string)
    ensures '\n' !in text ==> LineLength(text) == |text|
  {
    if text != "" {
      NoLine(text[1..]);
    }
  }

  /** A text that begins with the expected line has it as its first line. */
  lemma ExpectedStart(text: string, expected: Signal)
    ensures Begins(text, Name(expected) + "\n") ==> LineLength(text) == |Name(expected)| + 1
  {
    var start := Name(expected) + "\n";
    if Begins(text, start) {
      NamesAreLines(expected, expected);
      LineOf(Name(expected), text[|start|..]);
      assert text == Name(expected) + "\n" + text[|start|..];
    }
  }

  /** The first line of a queue's text is its first signal. */
  lemma QueueStart(queue: seq<Signal>, text: string, expected: Signal)
    ensures text == Encode(queue) && queue != [] ==>
              && LineLength(text) == |Name(queue[0])| + 1 && text[LineLength(text)..] == Encode(queue[1..])
              && (Begins(text, Name(expected) + "\n") <==> queue[0] == expected)
  {
    if text == Encode(queue) && queue != [] {
      EncodeFirst(queue);
      NamesAreLines(queue[0], expected);
      LineOf(Name(queue[0]), Encode(queue[1..]));
      ExpectedStart(text, expected);
      var line := text[..LineLength(text)];
      assert line == Name(queue[0]) + "\n";
      assert line[..|line| - 1] == Name(queue[0]);
      if Begins(text, Name(expected) + "\n") {
        assert line == Name(expected) + "\n";
        assert line[..|line| - 1] == Name(expected);
      }
    }
  }
}
