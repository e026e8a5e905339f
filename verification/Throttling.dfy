/** The throttle bits of the board's firmware: hexadecimal text to a bit string indexed by bit number. */
module Throttling {
  import opened Wrappers
  import opened CounterLifecycle

  const SOFT_TEMP_LIMIT_BIT := 3
  const WIDTH := 20

  // ---- numbers -----------------------------------------------------------------------------

  function Pow2(k: nat): (p: nat)
    ensures p > 0
  {
    if k == 0 then 1 else 2 * Pow2(k - 1)
  }

  /** Bit `i` of a number. */
  predicate Bit(n: nat, i: nat) {
    if i == 0 then n % 2 == 1 else Bit(n / 2, i - 1)
  }

  predicate Binary(s: string) {
    forall i :: 0 <= i < |s| ==> s[i] == '0' || s[i] == '1'
  }

  /** Go's FormatUint in base two. */
  function FormatBinary(n: nat): (s: string)
    ensures s != "" && Binary(s)
  {
    var digit := if n % 2 == 1 then "1" else "0";
    if n < 2 then digit else FormatBinary(n / 2) + digit
  }

  /** The digit of bit `i` is the one `i` places from the right; beyond the first digit all bits are clear. */
  lemma {:induction false} FormatBits(n: nat, i: nat)
    ensures var s := FormatBinary(n);
            Bit(n, i) <==> i < |s| && s[|s| - 1 - i] == '1'
  {
    if i > 0 {
      if n >= 2 {
        var s, rest := FormatBinary(n), FormatBinary(n / 2);
        FormatBits(n / 2, i - 1);
        assert |s| == |rest| + 1 && forall k :: 0 <= k < |rest| ==> s[k] == rest[k];
        hide FormatBinary;
        assert i < |s| ==> s[|s| - 1 - i] == rest[|rest| - 1 - (i - 1)];
      } else {
        NoBits(i - 1);
      }
    }
  }

  lemma {:induction false} NoBits(i: nat)
    ensures !Bit(0, i)
  {
    if i > 0 {
      NoBits(i - 1);
    }
  }

  /** A number fits in `k` digits exactly when it is below the k-th power of two. */
  lemma {:induction false} FormatLength(n: nat, k: nat)
    requires k > 0
    ensures |FormatBinary(n)| <= k <==> n < Pow2(k)
  {
    if n < 2 {
      assert Pow2(k) == 2 * Pow2(k - 1);
    } else if k == 1 {
      assert Pow2(1) == 2;
    } else {
      FormatLength(n / 2, k - 1);
    }
  }

  // ---- hexadecimal -------------------------------------------------------------------------

  function HexDigit(c: char): Option<nat> {
    if '0' <= c <= '9' then Some(c as nat - '0' as nat)
    else if 'a' <= c <= 'f' then Some(c as nat - 'a' as nat + 10)
    else if 'A' <= c <= 'F' then Some(c as nat - 'A' as nat + 10)
    else None
  }

  /** The value of hexadecimal digits, none if some character is no digit. */
  function HexValue(s: string): Option<nat> {
    if s == "" then Some(0)
    else
      match (HexValue(s[..|s| - 1]), HexDigit(s[|s| - 1]))
      case (Some(high), Some(low)) => Some(high * 16 + low)
      case _ => None
  }

  /** Go's ParseUint in base sixteen and 64 bits. */
  function ParseHex(s: string): Option<nat> {
    match HexValue(s)
    case Some(n) => if s != "" && n < 0x1_0000_0000_0000_0000 then Some(n) else None
    case None => None
  }

  /** The firmware's lower-case hexadecimal. */
  function FormatHex(n: nat): (s: string)
    ensures s != "" && forall i :: 0 <= i < |s| ==> HexDigit(s[i]).Some?
  {
    var d := n % 16;
    var digit := if d < 10 then [('0' as int + d) as char] else [('a' as int + d - 10) as char];
    if n < 16 then digit else FormatHex(n / 16) + digit
  }

  lemma {:induction false} HexRoundTrip(n: nat)
    ensures HexValue(FormatHex(n)) == Some(n)
  {
    var s := FormatHex(n);
    if n >= 16 {
      HexRoundTrip(n / 16);
      assert s[..|s| - 1] == FormatHex(n / 16);
    } else {
      assert s[..|s| - 1] == "";
    }
  }

  /** What follows the first occurrence of a separator; nothing if there is none. */
  function CutAfter(s: string, separator: string): string
    requires separator != ""
  {
    if |s| < |separator| then ""
    else if separator <= s then s[|separator|..]
    else CutAfter(s[1..], separator)
  }

  /** The number the firmware reports in its output. */
  function Reading(output: string): Option<nat> {
    ParseHex(CutAfter(Trim(output, SPACE), "=0x"))
  }

  lemma EndsAreNoSpace(n: nat)
    ensures FormatHex(n) != ""
    ensures var word := "throttled=0x" + FormatHex(n); word[0] !in SPACE && word[|word| - 1] !in SPACE
  {
    var hex := FormatHex(n);
    var last := hex[|hex| - 1];
    assert HexDigit(last).Some?;
    assert last !in SPACE;
    var word := "throttled=0x" + hex;
    assert word[0] == 't' && word[|word| - 1] == last;
  }

  /** The output's shape is read back, whatever white space surrounds it. */
  lemma ReadingOfOutput(n: nat, before: string, after: string)
    requires n < 0x1_0000_0000_0000_0000 && All(before, SPACE) && All(after, SPACE)
    ensures Reading(before + ("throttled=0x" + FormatHex(n)) + after) == Some(n)
  {
    hide FormatHex, HexValue, HexDigit, CutAfter, Trim;
    var hex := FormatHex(n);
    EndsAreNoSpace(n);
    PaddedIsTrimmed(before, "throttled=0x" + hex, after, SPACE);
    CutLabel(hex);
    HexRoundTrip(n);
  }

  lemma CutLabel(rest: string)
    ensures CutAfter("throttled=0x" + rest, "=0x") == rest
  {
    SkipLabel("throttled", "=0x" + rest);
    assert "throttled" + ("=0x" + rest) == "throttled=0x" + rest;
    assert ("=0x" + rest)[3..] == rest;
  }

  lemma {:induction false} SkipLabel(head: string, rest: string)
    requires '=' !in head && |rest| >= 3
    ensures CutAfter(head + rest, "=0x") == CutAfter(rest, "=0x")
  {
    if head == "" {
      assert head + rest == rest;
    } else {
      assert (head + rest)[0] == head[0] != "=0x"[0];
      assert (head + rest)[1..] == head[1..] + rest;
      SkipLabel(head[1..], rest);
    }
  }

  /** A separator begins at a place of the text. */
  predicate OccursAt(s: string, separator: string, at: nat) {
    at + |separator| <= |s| && s[at..at + |separator|] == separator
  }

  lemma OccursBehind(s: string, separator: string, at: nat)
    requires 0 < at <= |s|
    ensures OccursAt(s, separator, at) <==> OccursAt(s[1..], separator, at - 1)
  {
    if at + |separator| <= |s| {
      assert s[1..][at - 1..at - 1 + |separator|] == s[at..at + |separator|];
    }
  }

  /** The cut is behind the first occurrence, and there is nothing to cut without one. */
  lemma {:induction false} CutAtFirst(s: string, separator: string, at: nat)
    requires separator != "" && at <= |s| && forall i :: 0 <= i < at ==> !OccursAt(s, separator, i)
    requires OccursAt(s, separator, at) || at == |s|
    ensures CutAfter(s, separator) == if OccursAt(s, separator, at) then s[at + |separator|..] else ""
  {
    if at == 0 {
      assert OccursAt(s, separator, 0) ==> s[..|separator|] == separator;
    } else {
      assert !OccursAt(s, separator, 0);
      forall i | 0 <= i < at - 1
        ensures !OccursAt(s[1..], separator, i)
      {
        OccursBehind(s, separator, i + 1);
      }
      OccursBehind(s, separator, at);
      CutAtFirst(s[1..], separator, at - 1);
      if OccursAt(s, separator, at) {
        assert s[1..][at - 1 + |separator|..] == s[at + |separator|..];
      }
    }
  }

  /** The value of a hexadecimal digit, in either case. */
  ghost predicate IsHexDigit(c: char, d: nat) {
    || (d < 10 && c == "0123456789"[d])
    || (10 <= d < 16 && (c == "abcdef"[d - 10] || c == "ABCDEF"[d - 10]))
  }

  lemma HexDigitIs(c: char, d: nat)
    ensures HexDigit(c) == Some(d) <==> IsHexDigit(c, d)
  {
    if d < 10 {
      assert "0123456789"[d] as int == '0' as int + d;
    } else if d < 16 {
      assert "abcdef"[d - 10] as int == 'a' as int + d - 10;
      assert "ABCDEF"[d - 10] as int == 'A' as int + d - 10;
    }
  }

  /** The digits stand for a number, read from the left. */
  ghost predicate IsHex(digits: string, n: nat) {
    if digits == "" then n == 0 else IsHexDigit(digits[|digits| - 1], n % 16) && IsHex(digits[..|digits| - 1], n / 16)
  }

  lemma SmallDigit(c: char)
    ensures HexDigit(c).Some? ==> HexDigit(c).value < 16
  {
  }

  lemma HexStep(digits: string, n: nat)
    requires digits != ""
    ensures HexValue(digits) == Some(n) <==>
            HexValue(digits[..|digits| - 1]) == Some(n / 16) && HexDigit(digits[|digits| - 1]) == Some(n % 16)
  {
    var high, low := HexValue(digits[..|digits| - 1]), HexDigit(digits[|digits| - 1]);
    assert HexValue(digits) == if high.Some? && low.Some? then Some(high.value * 16 + low.value) else None;
    SmallDigit(digits[|digits| - 1]);
    hide HexValue, HexDigit;
  }

  lemma {:induction false} HexValueIs(digits: string, n: nat)
    ensures HexValue(digits) == Some(n) <==> IsHex(digits, n)
  {
    if digits != "" {
      var rest, last := digits[..|digits| - 1], digits[|digits| - 1];
      HexStep(digits, n);
      HexValueIs(rest, n / 16);
      HexDigitIs(last, n % 16);
      hide IsHexDigit, HexDigit, HexValue;
    }
  }

  /** The whole reading: around the text there may be white space, and what follows its first "=0x" has to be the
      hexadecimal digits of a number of 64 bits, in upper or lower case. */
  lemma ReadingIs(output: string, before: string, text: string, after: string, at: nat, n: nat)
    requires output == before + text + after && All(before, SPACE) && All(after, SPACE)
    requires text != "" && text[0] !in SPACE && text[|text| - 1] !in SPACE
    requires at <= |text| && forall i :: 0 <= i < at ==> !OccursAt(text, "=0x", i)
    requires OccursAt(text, "=0x", at) || at == |text|
    ensures Reading(output) == Some(n) <==>
              OccursAt(text, "=0x", at) && at + 3 < |text| && IsHex(text[at + 3..], n) && n < 18446744073709551616
  {
    PaddedIsTrimmed(before, text, after, SPACE);
    CutAtFirst(text, "=0x", at);
    if OccursAt(text, "=0x", at) {
      HexValueIs(text[at + 3..], n);
    }
    hide IsHex, HexValue;
  }

  // ---- bits --------------------------------------------------------------------------------

  /** The result of reading the bits: a string, or the panic of a negative repeat count. */
  datatype Bits = Bits(text: string) | Panic

  function Zeros(n: nat): (s: string)
    ensures |s| == n && forall i :: 0 <= i < n ==> s[i] == '0'
  {
    seq(n, _ => '0')
  }

  /** Go's slices.Reverse. */
  method Reverse(bits: array<char>)
    modifies bits
    ensures forall i :: 0 <= i < bits.Length ==> bits[i] == old(bits[bits.Length - 1 - i])
  {
    var n, i := bits.Length, 0;
    while i < n / 2
      invariant 0 <= i <= n / 2
      invariant forall k :: 0 <= k < i ==> bits[k] == old(bits[n - 1 - k]) && bits[n - 1 - k] == old(bits[k])
      invariant forall k :: i <= k < n - i ==> bits[k] == old(bits[k])
    {
      bits[i], bits[n - 1 - i] := bits[n - 1 - i], bits[i];
      i := i + 1;
    }
  }

  /** Twenty characters, the i-th saying whether bit i is set. */
  ghost predicate Decodes(text: string, n: nat) {
    |text| == WIDTH && forall i :: 0 <= i < WIDTH ==> (text[i] == '1' <==> Bit(n, i)) && (text[i] == '1' || text[i] == '0')
  }

  /** The padded digits, read from the right. */
  lemma ReversedDecodes(n: nat, binary: string, text: string)
    requires binary == FormatBinary(n) && |binary| <= WIDTH && |text| == WIDTH
    requires forall i :: 0 <= i < WIDTH ==> text[i] == (Zeros(WIDTH - |binary|) + binary)[WIDTH - 1 - i]
    ensures Decodes(text, n)
  {
    hide FormatBinary, Bit;
    forall i | 0 <= i < WIDTH
      ensures text[i] == '1' <==> Bit(n, i)
      ensures text[i] == '1' || text[i] == '0'
    {
      FormatBits(n, i);
    }
  }

  /** Pads, converts to bytes and reverses in place.  A number of more than twenty bits makes it panic. */
  method DecodeBits(n: nat) returns (bits: Bits)
    ensures bits.Panic? <==> n >= Pow2(WIDTH)
    ensures bits.Bits? ==> Decodes(bits.text, n)
  {
    var binary := FormatBinary(n);
    FormatLength(n, WIDTH);
    if |binary| > WIDTH {
      return Panic;
    }
    var padded := Zeros(WIDTH - |binary|) + binary;
    var bytes := new char[WIDTH](i requires 0 <= i < WIDTH => padded[i]);
    Reverse(bytes);
    ReversedDecodes(n, binary, bytes[..]);
    bits := Bits(bytes[..]);
    hide Decodes, FormatBinary, Pow2;
  }

  /** The bits of the command's output; nothing when the command failed or its output holds no number. */
  method ReadThrottleBits(output: Option<string>) returns (bits: Bits)
    ensures output.None? || Reading(output.value).None? ==> bits == Bits("")
    ensures output.Some? && Reading(output.value).Some? ==>
              var n := Reading(output.value).value;
              (bits.Panic? <==> n >= Pow2(WIDTH)) && (bits.Bits? ==> Decodes(bits.text, n))
  {
    if output.None? {
      return Bits("");
    }
    var number := Reading(output.value);
    if number.None? {
      return Bits("");
    }
    bits := DecodeBits(number.value);
  }

  /** The number of a readable output. */
  function Readable(output: Option<string>): Option<nat> {
    if output.None? then None else Reading(output.value)
  }

  /** The bit is set exactly when the number modulo sixteen is at least eight. */
  lemma SoftLimitBit(n: nat)
    ensures Bit(n, SOFT_TEMP_LIMIT_BIT) <==> n % 16 >= 8
  {
    assert Bit(n, 3) == Bit(n / 2, 2) == Bit(n / 2 / 2, 1) == Bit(n / 2 / 2 / 2, 0);
    assert n / 2 / 2 / 2 == n / 8;
    assert n == (n / 16) * 16 + n % 16;
    if n % 16 >= 8 {
      assert n / 8 == 2 * (n / 16) + 1;
    } else {
      assert n / 8 == 2 * (n / 16);
    }
  }

  lemma TwentyBits()
    ensures Pow2(20) == 1048576
  {
    assert Pow2(5) == 32;
    assert Pow2(10) == 1024;
    assert Pow2(15) == 32768;
  }

  class ThrottleWatch {
    const bits: string

    constructor (bits: string)
      ensures this.bits == bits
    {
      this.bits := bits;
    }

    /** Throttled when the soft temperature limit was active in either reading; never, when one of them could
        not be read. */
    method IsThrottled(current: Option<string>, ghost first: Option<string>) returns (throttled: bool, panicked: bool)
      requires match Readable(first) case None => bits == "" case Some(n) => Decodes(bits, n)
      ensures panicked <==> Readable(current).Some? && Readable(current).value >= 1048576
      ensures !panicked ==>
                (throttled <==> Readable(first).Some? && Readable(current).Some?
                                && (Readable(first).value % 16 >= 8 || Readable(current).value % 16 >= 8))
    {
      assert Pow2(WIDTH) == 1048576 by { TwentyBits(); }
      if Readable(first).Some? {
        SoftLimitBit(Readable(first).value);
      }
      if Readable(current).Some? {
        SoftLimitBit(Readable(current).value);
      }
      hide Bit, Pow2, Readable;
      var now := ReadThrottleBits(current);
      if now.Panic? {
        return false, true;
      }
      if bits == "" || now.text == "" {
        return false, false;
      }
      return bits[SOFT_TEMP_LIMIT_BIT] == '1' || now.text[SOFT_TEMP_LIMIT_BIT] == '1', false;
    }
  }
}
