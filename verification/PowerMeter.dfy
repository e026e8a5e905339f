/** Reading one frame from the power meter: a stream that arrives in chunks of any size, and big-endian
    fields at fixed offsets. */
module PowerMeter {
  import opened Wrappers

  type Byte = x: int | 0 <= x < 256

  const RESPONSE_SIZE := 130

  // ---- big-endian integers -----------------------------------------------------------------

  function BigEndian(bytes: seq<Byte>): nat {
    if bytes == [] then 0 else BigEndian(bytes[..|bytes| - 1]) * 256 + bytes[|bytes| - 1]
  }

  function Pow256(k: nat): (p: nat)
    ensures p > 0
  {
    if k == 0 then 1 else Pow256(k - 1) * 256
  }

  /** The `k` bytes of a number, most significant first. */
  function Bytes(n: nat, k: nat): (bytes: seq<Byte>)
    ensures |bytes| == k
  {
    if k == 0 then [] else Bytes(n / 256, k - 1) + [n % 256]
  }

  /** What was encoded in `k` bytes is decoded, as far as it fits. */
  lemma {:induction false} BigEndianRoundTrip(n: nat, k: nat)
    requires n < Pow256(k)
    ensures BigEndian(Bytes(n, k)) == n
  {
    if k > 0 {
      BigEndianRoundTrip(n / 256, k - 1);
      var bytes := Bytes(n, k);
      assert bytes[..k - 1] == Bytes(n / 256, k - 1);
    }
  }

  // ---- frames ------------------------------------------------------------------------------

  datatype Sample = Sample(voltage: real, current: real, power: real)

  function Decode(data: seq<Byte>): Sample
    requires |data| == 130
  {
    Sample(BigEndian(data[2..4]) as real / 100.0, BigEndian(data[4..6]) as real / 1000.0,
           BigEndian(data[6..10]) as real / 1000.0)
  }

  lemma Fields(head: seq<Byte>, a: seq<Byte>, b: seq<Byte>, c: seq<Byte>, tail: seq<Byte>)
    requires |head| == |a| == |b| == 2 && |c| == 4
    ensures var data := head + a + b + c + tail;
            |data| == 10 + |tail| && data[2..4] == a && data[4..6] == b && data[6..10] == c
  {
  }

  /** A frame that carries centivolts, milliamperes and milliwatts in its fields decodes to them, whatever the
      other bytes are. */
  lemma DecodeFrame(head: seq<Byte>, tail: seq<Byte>, centivolts: nat, milliamperes: nat, milliwatts: nat)
    requires |head| == 2 && |tail| == 120
    requires centivolts < Pow256(2) && milliamperes < Pow256(2) && milliwatts < Pow256(4)
    ensures Decode(head + Bytes(centivolts, 2) + Bytes(milliamperes, 2) + Bytes(milliwatts, 4) + tail) ==
            Sample(centivolts as real / 100.0, milliamperes as real / 1000.0, milliwatts as real / 1000.0)
  {
    Fields(head, Bytes(centivolts, 2), Bytes(milliamperes, 2), Bytes(milliwatts, 4), tail);
    hide BigEndian;
    BigEndianRoundTrip(centivolts, 2);
    BigEndianRoundTrip(milliamperes, 2);
    BigEndianRoundTrip(milliwatts, 4);
  }

  // ---- the connection ----------------------------------------------------------------------

  /** The bytes the peer will still send before it closes. */
  class Connection {
    var incoming: seq<Byte>

    constructor (incoming: seq<Byte>)
      ensures this.incoming == incoming
    {
      this.incoming := incoming;
    }

    /** At least one byte and at most `limit`, as many as `available` says have arrived; nothing only when the
        peer has closed. */
    method Receive(limit: nat, available: nat) returns (chunk: seq<Byte>)
      requires limit > 0
      modifies this
      ensures |chunk| <= limit && (chunk == [] <==> old(incoming) == [])
      ensures chunk + incoming == old(incoming)
    {
      var wanted := if available == 0 then 1 else available;
      var n := if wanted > limit then limit else wanted;
      n := if n > |incoming| then |incoming| else n;
      chunk := incoming[..n];
      incoming := incoming[n..];
    }
  }

  datatype Reading = Frame(sample: Sample) | ClosedAfter(bytes: nat)

  /** Reads one frame.  However the bytes are cut into chunks, the first 130 bytes are the frame and no byte
      after them is taken; the peer's close is reported exactly when fewer than 130 bytes come before it. */
  method Read(connection: Connection, arrivals: nat -> nat) returns (reading: Reading)
    modifies connection
    ensures var sent := old(connection.incoming);
            if |sent| >= 130 then reading == Frame(Decode(sent[..130])) && connection.incoming == sent[130..]
            else reading == ClosedAfter(|sent|) && connection.incoming == []
  {
    var data: seq<Byte> := [];
    var calls := 0;
    while |data| < RESPONSE_SIZE
      invariant |data| <= RESPONSE_SIZE && data + connection.incoming == old(connection.incoming)
    {
      var chunk := connection.Receive(RESPONSE_SIZE - |data|, arrivals(calls));
      if chunk == [] {
        return ClosedAfter(|data|);
      }
      assert data + chunk + connection.incoming == data + (chunk + connection.incoming);
      data := data + chunk;
      calls := calls + 1;
    }
    assert old(connection.incoming)[..RESPONSE_SIZE] == data;
    assert old(connection.incoming)[RESPONSE_SIZE..] == connection.incoming;
    return Frame(Decode(data));
  }
}
