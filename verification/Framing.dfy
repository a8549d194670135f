/** Length-prefixed messages between the agent and its package helper. */
module Framing {
  import opened Options

  type Octet = x: int | 0 <= x < 256

  const MAX_HELPER_MESSAGE_BYTES := 256 * 1024

  predicate WithinBound(size: int) { 1 <= size <= MAX_HELPER_MESSAGE_BYTES }

  function BigEndian(n: nat): seq<Octet>
    requires n < 0x1_0000_0000
  {
    [n / 0x100_0000, n / 0x1_0000 % 0x100, n / 0x100 % 0x100, n % 0x100]
  }

  function Unpack(h: seq<Octet>): nat
    requires |h| == 4
  {
    h[0] as int * 0x100_0000 + h[1] as int * 0x1_0000 + h[2] as int * 0x100 + h[3] as int
  }

  /** Four octets and the numbers below 2 to the 32nd correspond one to one. */
  lemma LengthRoundTrip(n: nat)
    requires n < 0x1_0000_0000
    ensures Unpack(BigEndian(n)) == n
  {
    assert n / 0x1_0000 == n / 0x100_0000 * 0x100 + n / 0x1_0000 % 0x100;
    assert n / 0x100 == n / 0x1_0000 * 0x100 + n / 0x100 % 0x100;
  }

  lemma LowOctet(high: nat, low: Octet)
    ensures (high * 0x100 + low as int) / 0x100 == high && (high * 0x100 + low as int) % 0x100 == low as int
  {
  }

  lemma HeaderRoundTrip(h: seq<Octet>)
    requires |h| == 4
    ensures Unpack(h) < 0x1_0000_0000 && BigEndian(Unpack(h)) == h
  {
    var top := h[0] as int * 0x100 + h[1] as int;
    var upper := top * 0x100 + h[2] as int;
    var n := upper * 0x100 + h[3] as int;
    LowOctet(h[0], h[1]);
    LowOctet(top, h[2]);
    LowOctet(upper, h[3]);
    assert n / 0x1_0000 == top && n / 0x100_0000 == h[0] as int;
  }

  method FrameHelperMessage(raw: seq<Octet>) returns (r: Option<seq<Octet>>)
    ensures r.Some? <==> 1 <= |raw| <= 262_144
    ensures r.Some? ==> |r.value| == 4 + |raw| && r.value[4..] == raw && Unpack(r.value[..4]) == |raw|
  {
    if !WithinBound(|raw|) { return None; }
    LengthRoundTrip(|raw|);
    var header := BigEndian(|raw|);
    assert (header + raw)[..4] == header;
    return Some(header + raw);
  }

  function Min(a: nat, b: nat): nat { if a <= b then a else b }

  /** The message at the front of a stream. */
  function Decoded(stream: seq<Octet>): Option<seq<Octet>> {
    if |stream| < 4 then None
    else
      var size := Unpack(stream[..4]);
      if WithinBound(size) && |stream| >= 4 + size then Some(stream[4..4 + size]) else None
  }

  /** A connected socket. Each `recv` returns between one octet and the number asked
      for, as the network pleases, and nothing only at the end of the stream. */
  class Connection {
    var unread: seq<Octet>

    constructor (stream: seq<Octet>)
      ensures unread == stream
    {
      unread := stream;
    }

    method Recv(limit: nat) returns (chunk: seq<Octet>)
      requires limit > 0
      modifies this
      ensures old(unread) == chunk + unread
      ensures |chunk| <= limit
      ensures chunk == [] <==> old(unread) == []
    {
      if unread == [] { return []; }
      var cut: nat := *;
      var size := if cut == 0 then 1 else Min(cut, Min(limit, |unread|));
      chunk := unread[..size];
      unread := unread[size..];
    }

    /** Exactly the next `size` octets, or a refusal when the stream has fewer. */
    method ReceiveExact(size: nat) returns (r: Option<seq<Octet>>)
      modifies this
      ensures r.Some? <==> |old(unread)| >= size
      ensures r.Some? ==> r.value == old(unread)[..size] && unread == old(unread)[size..]
    {
      var received, remaining := [], size;
      while remaining > 0
        invariant remaining >= 0 && |received| + remaining == size
        invariant old(unread) == received + unread
      {
        var chunk := Recv(remaining);
        if chunk == [] { return None; }
        received := received + chunk;
        remaining := remaining - |chunk|;
      }
      assert old(unread)[..size] == received;
      return Some(received);
    }

    /** However the stream is cut, the outcome is the one its octets determine, and no
        octet beyond the message is read. */
    method ReceiveHelperMessage() returns (r: Option<seq<Octet>>)
      modifies this
      ensures r == Decoded(old(unread))
      ensures r.Some? ==> unread == old(unread)[4 + |r.value|..]
    {
      var header := ReceiveExact(4);
      if header.None? { return None; }
      var size := Unpack(header.value);
      if !WithinBound(size) { return None; }
      ghost var behind := unread;
      assert behind == old(unread)[4..];
      r := ReceiveExact(size);
      assert |behind| >= size ==> behind[..size] == old(unread)[4..4 + size];
    }
  }

  /** A stream yields a message exactly when it starts with that message's frame. */
  lemma DecodedIsTheFramed(stream: seq<Octet>, message: seq<Octet>)
    ensures Decoded(stream) == Some(message) <==>
            1 <= |message| <= 262_144 && BigEndian(|message|) + message <= stream
  {
    if Decoded(stream) == Some(message) {
      HeaderRoundTrip(stream[..4]);
      assert stream[..4] + stream[4..4 + |message|] == stream[..4 + |message|];
    }
    if WithinBound(|message|) && BigEndian(|message|) + message <= stream {
      LengthRoundTrip(|message|);
      var frame := BigEndian(|message|) + message;
      assert stream[..4] == frame[..4] == BigEndian(|message|);
      assert stream[4..4 + |message|] == frame[4..] == message;
    }
  }

  /** Nothing short of the whole frame is accepted. */
  lemma TruncatedIsRefused(message: seq<Octet>, cut: nat)
    requires WithinBound(|message|) && cut < 4 + |message|
    ensures Decoded((BigEndian(|message|) + message)[..cut]) == None
  {
    var frame := BigEndian(|message|) + message;
    if cut >= 4 {
      assert frame[..cut][..4] == BigEndian(|message|);
      LengthRoundTrip(|message|);
    }
  }

  /** Sending a message and receiving it, with anything sent behind it left unread. */
  method SendAndReceive(message: seq<Octet>, behind: seq<Octet>) returns (r: Option<seq<Octet>>, rest: seq<Octet>)
    ensures r == (if 1 <= |message| <= 262_144 then Some(message) else None) && rest == behind
  {
    var framed := FrameHelperMessage(message);
    if framed.None? { return None, behind; }
    var connection := new Connection(framed.value + behind);
    ghost var stream := connection.unread;
    assert stream[..4] == framed.value[..4];
    assert stream[4..4 + |message|] == framed.value[4..];
    r := connection.ReceiveHelperMessage();
    rest := connection.unread;
  }
}
