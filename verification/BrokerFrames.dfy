/** The broker's binary framing over a stream socket that splits bytes as it likes. */
module BrokerFrames {

  newtype byte = x: int | 0 <= x < 256

  const FRAME_CONTROL := 1
  const FRAME_RAW_OUTPUT := 2
  const HEADER_SIZE := 5
  const MAX_CONTROL_BYTES := 1024 * 1024
  const MAX_RAW_BYTES := 4 * 1024 * 1024

  datatype Frame = Frame(kind: int, payload: seq<byte>)

  predicate KnownKind(kind: int) {
    kind == FRAME_CONTROL || kind == FRAME_RAW_OUTPUT
  }

  function Maximum(kind: int): nat {
    if kind == FRAME_CONTROL then MAX_CONTROL_BYTES else MAX_RAW_BYTES
  }

  predicate Sendable(f: Frame) {
    KnownKind(f.kind) && |f.payload| <= Maximum(f.kind)
  }

  // ---------------------------------------------------------------- header

  /** Network byte order, four bytes. */
  function PackLength(n: nat): (b: seq<byte>)
    requires n < 0x1_0000_0000
    ensures |b| == 4
    ensures n == b[0] as nat * 0x100_0000 + b[1] as nat * 0x1_0000 + b[2] as nat * 0x100 + b[3] as nat
  {
    Digits256(n);
    [(n / 0x100 / 0x100 / 0x100) as byte, (n / 0x100 / 0x100 % 0x100) as byte, (n / 0x100 % 0x100) as byte,
      (n % 0x100) as byte]
  }

  lemma Digits256(n: nat)
    ensures n == n / 0x100 * 0x100 + n % 0x100
    ensures n / 0x100 == n / 0x100 / 0x100 * 0x100 + n / 0x100 % 0x100
    ensures n / 0x100 / 0x100 == n / 0x100 / 0x100 / 0x100 * 0x100 + n / 0x100 / 0x100 % 0x100
  {
  }

  function UnpackLength(b: seq<byte>): (n: nat)
    requires |b| == 4
    ensures n == b[0] as nat * 0x100_0000 + b[1] as nat * 0x1_0000 + b[2] as nat * 0x100 + b[3] as nat
  {
    ((b[0] as nat * 0x100 + b[1] as nat) * 0x100 + b[2] as nat) * 0x100 + b[3] as nat
  }

  lemma LengthRoundTrip(n: nat)
    requires n < 0x1_0000_0000
    ensures UnpackLength(PackLength(n)) == n
  {
    Digits256(n);
  }

  function Encode(f: Frame): (b: seq<byte>)
    requires Sendable(f)
    ensures |b| == HEADER_SIZE + |f.payload|
  {
    [f.kind as byte] + PackLength(|f.payload|) + f.payload
  }

  function EncodeAll(frames: seq<Frame>): seq<byte>
    requires forall f | f in frames :: Sendable(f)
  {
    if frames == [] then [] else Encode(frames[0]) + EncodeAll(frames[1..])
  }

  // ---------------------------------------------------------------- receiving

  datatype Reception = Got(frame: Frame) | Eof | UnknownKind | TooLong

  /** What one `receive_frame` makes of the bytes still to come, and what it leaves. An end of
      stream inside a frame consumes the fragment. */
  function Receive(stream: seq<byte>): (Reception, seq<byte>) {
    if |stream| < HEADER_SIZE then (Eof, [])
    else
      var kind, size, rest := stream[0] as int, UnpackLength(stream[1..5]), stream[5..];
      if !KnownKind(kind) then (UnknownKind, rest)
      else if size > Maximum(kind) then (TooLong, rest)
      else if |rest| < size then (Eof, [])
      else (Got(Frame(kind, rest[..size])), rest[size..])
  }

  /** Frames received until the first reception that is not one, and that reception. */
  function ReceiveAll(stream: seq<byte>): (seq<Frame>, Reception)
    decreases |stream|
  {
    var (r, rest) := Receive(stream);
    if r.Got? then
      var (frames, end) := ReceiveAll(rest);
      ([r.frame] + frames, end)
    else ([], r)
  }

  class Connection {
    var incoming: seq<byte>   // bytes the peer has sent or will send before it disconnects
    var outgoing: seq<byte>

    constructor (incoming: seq<byte>)
      ensures this.incoming == incoming && outgoing == []
    {
      this.incoming, outgoing := incoming, [];
    }

    /** `recv`: at least one byte and at most `size`, or nothing once the peer is gone. */
    method Recv(size: nat) returns (chunk: seq<byte>)
      requires size > 0
      modifies this`incoming
      ensures |chunk| <= size && old(incoming) == chunk + incoming
      ensures chunk == [] <==> old(incoming) == []
    {
      if incoming == [] {
        return [];
      }
      var n :| 1 <= n <= size && n <= |incoming|;
      chunk := incoming[..n];
      incoming := incoming[n..];
    }

    method SendAll(bytes: seq<byte>)
      modifies this`outgoing
      ensures outgoing == old(outgoing) + bytes
    {
      outgoing := outgoing + bytes;
    }
  }

  /** Collect chunks until `size` bytes are there. */
  method RecvExact(conn: Connection, size: nat) returns (ok: bool, data: seq<byte>)
    modifies conn`incoming
    ensures ok <==> |old(conn.incoming)| >= size
    ensures ok ==> data == old(conn.incoming)[..size] && conn.incoming == old(conn.incoming)[size..]
    ensures !ok ==> conn.incoming == []
  {
    data := [];
    var remaining := size;
    while remaining > 0
      invariant 0 <= remaining == size - |data| && old(conn.incoming) == data + conn.incoming
    {
      var chunk := conn.Recv(remaining);
      if chunk == [] {
        return false, [];
      }
      data := data + chunk;
      remaining := remaining - |chunk|;
    }
    assert old(conn.incoming)[..size] == data;
    ok := true;
  }

  /** The length a header announces, most significant byte first. */
  function Announced(header: seq<byte>): nat
    requires |header| >= 5
  {
    header[1] as nat * 0x100_0000 + header[2] as nat * 0x1_0000 + header[3] as nat * 0x100 + header[4] as nat
  }

  method ReceiveFrame(conn: Connection) returns (r: Reception)
    modifies conn`incoming
    ensures (r, conn.incoming) == Receive(old(conn.incoming))
    ensures var stream := old(conn.incoming); |stream| >= 5 ==>
      && (r.UnknownKind? <==> stream[0] != 1 && stream[0] != 2)
      && (r.TooLong? <==> (stream[0] == 1 && Announced(stream) > 1048576) || (stream[0] == 2 && Announced(stream) > 4194304))
      && (r.UnknownKind? || r.TooLong? ==> conn.incoming == stream[5..])
      && (r.Got? ==> r.frame.kind == stream[0] as int && |r.frame.payload| == Announced(stream))
      && (r.Got? ==> stream == stream[..5] + r.frame.payload + conn.incoming)
      && (r.Eof? ==> |stream| < 5 + Announced(stream) && conn.incoming == [])
    ensures |old(conn.incoming)| < 5 ==> r.Eof? && conn.incoming == []
  {
    ghost var stream := conn.incoming;
    var ok, header := RecvExact(conn, HEADER_SIZE);
    if !ok {
      return Eof;
    }
    assert header[1..5] == stream[1..5];
    var kind, size := header[0] as int, UnpackLength(header[1..5]);
    if !KnownKind(kind) {
      return UnknownKind;
    }
    if size > Maximum(kind) {
      return TooLong;
    }
    var complete, payload := RecvExact(conn, size);
    r := if complete then Got(Frame(kind, payload)) else Eof;
  }

  /** Receive until something other than a frame comes. */
  method Drain(conn: Connection) returns (frames: seq<Frame>, end: Reception)
    modifies conn`incoming
    ensures (frames, end) == ReceiveAll(old(conn.incoming))
  {
    frames := [];
    end := ReceiveFrame(conn);
    ghost var stream, last := old(conn.incoming), old(conn.incoming);
    assert [] + ReceiveAll(stream).0 == ReceiveAll(stream).0;
    while end.Got?
      invariant (end, conn.incoming) == Receive(last)
      invariant ReceiveAll(stream).0 == frames + ReceiveAll(last).0 && ReceiveAll(stream).1 == ReceiveAll(last).1
      decreases |last|
    {
      assert frames + ReceiveAll(last).0 == frames + [end.frame] + ReceiveAll(conn.incoming).0;
      frames := frames + [end.frame];
      last := conn.incoming;
      end := ReceiveFrame(conn);
    }
    assert frames + ReceiveAll(last).0 == frames;
  }

  // ---------------------------------------------------------------- sending

  datatype Sending = Sent | Refused

  method SendFrame(conn: Connection, kind: int, payload: seq<byte>) returns (r: Sending)
    modifies conn`outgoing
    ensures r == Sent <==> Sendable(Frame(kind, payload))
    ensures r == Sent <==> (kind == 1 && |payload| <= 1048576) || (kind == 2 && |payload| <= 4194304)
    ensures conn.outgoing == old(conn.outgoing) + if r == Sent then Encode(Frame(kind, payload)) else []
    ensures r == Sent ==>
      var sent := conn.outgoing[|old(conn.outgoing)|..];
      && |sent| == 5 + |payload| && sent[0] as int == kind && Announced(sent) == |payload| && sent[5..] == payload
  {
    if !KnownKind(kind) {
      return Refused;
    }
    if |payload| > Maximum(kind) {
      return Refused;
    }
    conn.SendAll([kind as byte] + PackLength(|payload|) + payload);
    r := Sent;
  }

  // ---------------------------------------------------------------- round trips

  lemma ReceiveEncoded(f: Frame, tail: seq<byte>)
    requires Sendable(f)
    ensures Receive(Encode(f) + tail) == (Got(f), tail)
  {
    var stream := Encode(f) + tail;
    assert stream[1..5] == PackLength(|f.payload|);
    LengthRoundTrip(|f.payload|);
    assert stream[5..] == f.payload + tail;
  }

  /** A cut inside the first frame is an end of file, never a frame and never an error. */
  lemma ReceiveCut(f: Frame, p: seq<byte>)
    requires Sendable(f) && p <= Encode(f) && |p| < |Encode(f)|
    ensures Receive(p) == (Eof, [])
  {
    if |p| >= HEADER_SIZE {
      assert p[1..5] == Encode(f)[1..5] == PackLength(|f.payload|);
      LengthRoundTrip(|f.payload|);
    }
  }

  lemma FirstOfMany(frames: seq<Frame>, k: nat)
    requires (forall f | f in frames :: Sendable(f)) && k < |frames|
    ensures frames[..k + 1] == [frames[0]] + frames[1..][..k]
    ensures EncodeAll(frames[..k + 1]) == Encode(frames[0]) + EncodeAll(frames[1..][..k])
  {
    assert frames[..k + 1][1..] == frames[1..][..k];
  }

  lemma PrefixOfSum(a: seq<byte>, b: seq<byte>, p: seq<byte>)
    requires p <= a + b
    ensures |p| < |a| ==> p <= a
    ensures |p| >= |a| ==> p == a + p[|a|..] && p[|a|..] <= b
  {
    if |p| >= |a| {
      assert (a + b)[|a|..|p|] == p[|a|..];
      assert p[..|a|] == a;
    }
  }

  /** Whatever part of the sent stream arrives: exactly the frames that arrived whole, then end of
      file. With the whole stream, exactly the frames sent. */
  lemma {:induction false} ReceivesWholeFrames(frames: seq<Frame>, p: seq<byte>) returns (k: nat)
    requires (forall f | f in frames :: Sendable(f)) && p <= EncodeAll(frames)
    ensures k <= |frames| && ReceiveAll(p) == (frames[..k], Eof)
    ensures EncodeAll(frames[..k]) <= p
    ensures k < |frames| ==> |p| < |EncodeAll(frames[..k + 1])|
    ensures p == EncodeAll(frames) ==> k == |frames|
  {
    hide Encode, Receive;
    if frames == [] {
      assert p == [] && Receive(p) == (Eof, []) by { ReceiveNothing(); }
      return 0;
    }
    var first, others := Encode(frames[0]), EncodeAll(frames[1..]);
    PrefixOfSum(first, others, p);
    FirstOfMany(frames, 0);
    assert EncodeAll([]) == [] && frames[1..][..0] == [];
    if |p| < |first| {
      ReceiveCut(frames[0], p);
      return 0;
    }
    var tail := p[|first|..];
    ReceiveEncoded(frames[0], tail);
    var k' := ReceivesWholeFrames(frames[1..], tail);
    k := k' + 1;
    FirstOfMany(frames, k');
    if k < |frames| {
      FirstOfMany(frames, k);
    }
  }

  lemma ReceiveNothing()
    ensures Receive([]) == (Eof, [])
  {
  }

  lemma LengthIsCanonical(b: seq<byte>)
    requires |b| == 4
    ensures UnpackLength(b) < 0x1_0000_0000 && PackLength(UnpackLength(b)) == b
  {
    var high := b[0] as nat * 0x100 + b[1] as nat;
    Split(b[0] as nat, b[1]);
    Split(high, b[2]);
    Split(high * 0x100 + b[2] as nat, b[3]);
  }

  lemma Split(q: nat, r: byte)
    ensures (q * 0x100 + r as nat) / 0x100 == q && (q * 0x100 + r as nat) % 0x100 == r as nat
  {
  }

  lemma ReceivedIsEncoding(stream: seq<byte>)
    ensures var (r, rest) := Receive(stream); r.Got? ==> Sendable(r.frame) && stream == Encode(r.frame) + rest
  {
    var (r, rest) := Receive(stream);
    if r.Got? {
      LengthIsCanonical(stream[1..5]);
      assert stream == [stream[0]] + stream[1..5] + stream[5..];
    }
  }

  /** On any bytes at all what is received re-encodes to the bytes consumed. */
  lemma {:induction false} ReceivedFramesArePrefix(stream: seq<byte>)
    ensures var frames := ReceiveAll(stream).0; (forall f | f in frames :: Sendable(f)) && EncodeAll(frames) <= stream
    decreases |stream|
  {
    hide Encode, Receive;
    var (r, rest) := Receive(stream);
    if r.Got? {
      ReceivedIsEncoding(stream);
      ReceivedFramesArePrefix(rest);
    }
  }
}
