/**
 The packet reader of a browser connection: reads of arbitrary size go into one
 fixed buffer, complete packets are yielded, the unread tail is moved to the front.
 */
module PacketReader {
  import opened Bytes

  const BUFFER_SIZE := 4096
  const HEADER_SIZE := 3
  const LAST_TYPE: byte := 5

  datatype Packet = Packet(kind: byte, data: seq<byte>)

  /** What a byte stream amounts to: its packets, whether it is malformed after them, and the unread tail. */
  datatype Scan = Scan(packets: seq<Packet>, stopped: bool, rest: seq<byte>)

  function PacketLength(s: seq<byte>): nat
    requires |s| >= 2
  {
    s[0] as int * 0x100 + s[1] as int
  }

  /** A stream whose first packet has not fully arrived. */
  predicate Incomplete(s: seq<byte>) {
    |s| < HEADER_SIZE || (HEADER_SIZE <= PacketLength(s) <= BUFFER_SIZE && PacketLength(s) > |s|)
  }

  /** A stream whose first packet the reader refuses; a complete one also when its type is unknown. */
  predicate Malformed(s: seq<byte>) {
    && |s| >= HEADER_SIZE
    && (PacketLength(s) < HEADER_SIZE || PacketLength(s) > BUFFER_SIZE
        || (PacketLength(s) <= |s| && s[2] > LAST_TYPE))
  }

  predicate Complete(s: seq<byte>) {
    !Incomplete(s) && !Malformed(s)
  }

  function First(s: seq<byte>): Packet
    requires Complete(s)
  {
    Packet(s[2], s[HEADER_SIZE..PacketLength(s)])
  }

  function Remainder(s: seq<byte>): (r: seq<byte>)
    requires Complete(s)
    ensures |r| < |s|
  {
    s[PacketLength(s)..]
  }

  function Prepend(packets: seq<Packet>, scan: Scan): Scan {
    Scan(packets + scan.packets, scan.stopped, scan.rest)
  }

  lemma PrependTwice(a: seq<Packet>, b: seq<Packet>, scan: Scan)
    ensures Prepend(a, Prepend(b, scan)) == Prepend(a + b, scan)
    ensures Prepend([], scan) == scan
  {
    assert a + (b + scan.packets) == (a + b) + scan.packets;
    assert [] + scan.packets == scan.packets;
  }

  /** The simple reader: it sees the whole stream at once and needs no buffer. */
  function Split(s: seq<byte>): Scan
    decreases |s|
  {
    if Incomplete(s) then Scan([], false, s)
    else if Malformed(s) then Scan([], true, s)
    else Prepend([First(s)], Split(Remainder(s)))
  }

  lemma MalformedIsNotIncomplete(s: seq<byte>)
    ensures !(Malformed(s) && Incomplete(s))
  {
  }

  lemma FirstExtends(s: seq<byte>, more: seq<byte>)
    ensures Malformed(s) ==> Malformed(s + more)
    ensures Complete(s) ==> Complete(s + more) && First(s + more) == First(s)
                            && Remainder(s + more) == Remainder(s) + more
  {
    if |s| >= HEADER_SIZE {
      assert (s + more)[2] == s[2];
      assert PacketLength(s + more) == PacketLength(s);
      if Complete(s) {
        var n := PacketLength(s);
        assert (s + more)[n..] == s[n..] + more;
        assert (s + more)[HEADER_SIZE..n] == s[HEADER_SIZE..n];
      }
    }
  }

  /** Later bytes never change what was already yielded; a tail is read as if it came first. */
  lemma {:induction false} SplitExtends(s: seq<byte>, more: seq<byte>)
    ensures Split(s).stopped ==> Split(s + more).stopped && Split(s + more).packets == Split(s).packets
    ensures !Split(s).stopped ==> Split(s + more) == Prepend(Split(s).packets, Split(Split(s).rest + more))
    decreases |s|
  {
    hide Malformed, Incomplete, First, Remainder;
    FirstExtends(s, more);
    MalformedIsNotIncomplete(s);
    MalformedIsNotIncomplete(s + more);
    if Incomplete(s) {
      PrependTwice([], [], Split(s + more));
    } else if Complete(s) {
      SplitExtends(Remainder(s), more);
      var tail := Split(Remainder(s));
      PrependTwice([First(s)], tail.packets, Split(tail.rest + more));
    }
  }

  function Frame(packet: Packet): seq<byte>
    requires |packet.data| + HEADER_SIZE <= BUFFER_SIZE
  {
    U16Bytes(|packet.data| + HEADER_SIZE) + [packet.kind] + packet.data
  }

  ghost predicate Sendable(packets: seq<Packet>) {
    forall p :: p in packets ==> |p.data| + HEADER_SIZE <= BUFFER_SIZE && p.kind <= LAST_TYPE
  }

  function Frames(packets: seq<Packet>): seq<byte>
    requires forall p :: p in packets ==> |p.data| + HEADER_SIZE <= BUFFER_SIZE
  {
    if packets == [] then [] else Frame(packets[0]) + Frames(packets[1..])
  }

  /** A frame that fits is complete, and holds its packet. */
  lemma FrameFirst(p: Packet, tail: seq<byte>)
    requires |p.data| + HEADER_SIZE <= BUFFER_SIZE && p.kind <= LAST_TYPE
    ensures var s := Frame(p) + tail;
      Complete(s) && First(s) == p && Remainder(s) == tail
  {
    hide U16Bytes, U16;
    var s := Frame(p) + tail;
    var n := |p.data| + HEADER_SIZE;
    U16RoundTrip(n);
    assert s[0..2] == U16Bytes(n);
    U16Is(s[0..2]);
    assert PacketLength(s) == n;
    assert s[2] == p.kind && s[HEADER_SIZE..n] == p.data && s[n..] == tail;
  }

  lemma U16Is(s: seq<byte>)
    requires |s| == 2
    ensures U16(s) == s[0] as int * 0x100 + s[1] as int
  {
  }

  /** Framing is undone exactly, whatever follows the frames. */
  lemma {:induction false} SplitFrames(packets: seq<Packet>, rest: seq<byte>)
    requires Sendable(packets)
    ensures Split(Frames(packets) + rest) == Prepend(packets, Split(rest))
  {
    hide Split, Prepend, Frame, First, Remainder, Complete;
    if packets == [] {
      assert Frames(packets) + rest == rest;
      PrependTwice([], [], Split(rest));
    } else {
      var p, tail := packets[0], Frames(packets[1..]) + rest;
      var s := Frame(p) + tail;
      assert Frames(packets) + rest == s;
      FrameFirst(p, tail);
      SplitFrames(packets[1..], rest);
      PrependTwice([], [], Split(s));
      SplitNext(s, []);
      PrependTwice([p], packets[1..], Split(rest));
      assert [] + [First(s)] == [p];
      assert [p] + packets[1..] == packets;
    }
  }

  /** An accepted stream leaves room in the buffer: its tail is shorter than the buffer. */
  lemma {:induction false} TailFits(s: seq<byte>)
    requires !Split(s).stopped
    ensures Incomplete(Split(s).rest) && |Split(s).rest| < BUFFER_SIZE
    decreases |s|
  {
    if !Incomplete(s) {
      TailFits(s[PacketLength(s)..]);
    }
  }

  class Reader {
    var buffer: array<byte>
    var available: nat

    /** Between reads the window behind the unread bytes is never empty. */
    ghost predicate Valid()
      reads this
    {
      buffer.Length == BUFFER_SIZE && available < BUFFER_SIZE
    }

    ghost function Pending(): seq<byte>
      reads this, buffer
      requires Valid()
    {
      buffer[..available]
    }

    constructor ()
      ensures Valid() && Pending() == [] && fresh(buffer)
    {
      buffer := new byte[BUFFER_SIZE];
      available := 0;
    }

    /** One read of `chunk` into the window, the packets it completes, and the compaction. */
    method Receive(chunk: seq<byte>) returns (packets: seq<Packet>, stopped: bool)
      requires Valid() && |chunk| <= BUFFER_SIZE - available
      modifies this`available, buffer
      ensures packets == Split(old(Pending()) + chunk).packets
      ensures stopped == Split(old(Pending()) + chunk).stopped
      ensures !stopped ==> Valid() && Pending() == Split(old(Pending()) + chunk).rest
    {
      hide Split, Incomplete;
      ghost var stream := Pending() + chunk;
      forall i | 0 <= i < |chunk| {
        buffer[available + i] := chunk[i];
      }
      available := available + |chunk|;
      assert buffer[..available] == stream;
      var offset;
      packets, stopped, offset := Drain(stream);
      if !stopped {
        TailFits(stream);
        if offset > 0 {
          forall i | 0 <= i < available - offset {
            buffer[i] := buffer[offset + i];
          }
          available := available - offset;
        }
        assert buffer[..available] == stream[offset..];
      }
    }

    /** The inner loop: yields packet after packet from the front of the unread bytes. */
    method Drain(ghost stream: seq<byte>) returns (packets: seq<Packet>, stopped: bool, offset: nat)
      requires buffer.Length == BUFFER_SIZE && available <= BUFFER_SIZE
      requires stream == buffer[..available]
      ensures packets == Split(stream).packets && stopped == Split(stream).stopped
      ensures offset <= available
      ensures !stopped ==> stream[offset..] == Split(stream).rest
    {
      hide Split, Prepend;
      offset, packets, stopped := 0, [], false;
      assert stream[0..] == stream;
      PrependTwice([], [], Split(stream));
      while available - offset >= HEADER_SIZE
        invariant offset <= available
        invariant Split(stream) == Prepend(packets, Split(stream[offset..]))
        decreases available - offset
      {
        ghost var tail := stream[offset..];
        var packetLength := buffer[offset] as int * 0x100 + buffer[offset + 1] as int;
        assert packetLength == PacketLength(tail);
        if packetLength < HEADER_SIZE {
          SplitEnds(tail, packets);
          return packets, true, offset;
        }
        if packetLength > buffer.Length {
          SplitEnds(tail, packets);
          return packets, true, offset;
        }
        if packetLength > available - offset {
          break;
        }
        var kind := buffer[offset + 2];
        if kind > LAST_TYPE {
          SplitEnds(tail, packets);
          return packets, true, offset;
        }
        var packet := Packet(kind, buffer[offset + HEADER_SIZE..offset + packetLength]);
        assert buffer[offset + HEADER_SIZE..offset + packetLength]
            == stream[offset + HEADER_SIZE..offset + packetLength];
        SliceOfRest(stream, offset, HEADER_SIZE, packetLength);
        assert packet == First(tail);
        assert Remainder(tail) == stream[offset + packetLength..];
        SplitNext(tail, packets);
        packets := packets + [packet];
        offset := offset + packetLength;
      }
      assert Incomplete(stream[offset..]);
      SplitEnds(stream[offset..], packets);
    }
  }

  lemma SplitEnds(s: seq<byte>, packets: seq<Packet>)
    requires Incomplete(s) || Malformed(s)
    ensures Prepend(packets, Split(s)) == Scan(packets, Malformed(s), s)
  {
    MalformedIsNotIncomplete(s);
    assert packets + [] == packets;
  }

  lemma SplitNext(s: seq<byte>, packets: seq<Packet>)
    requires Complete(s)
    ensures Prepend(packets, Split(s)) == Prepend(packets + [First(s)], Split(Remainder(s)))
  {
    PrependTwice(packets, [First(s)], Split(Remainder(s)));
  }

  lemma SliceOfRest<T>(s: seq<T>, start: nat, from: nat, to: nat)
    requires from <= to && start + to <= |s|
    ensures s[start..][from..to] == s[start + from..start + to]
  {
  }

  lemma SplitNothing()
    ensures Split([]) == Scan([], false, [])
  {
  }

  /** What was yielded before a read, and what the read adds. */
  lemma SplitMore(s: seq<byte>, chunk: seq<byte>, packets: seq<Packet>, rest: seq<byte>)
    requires Split(s) == Scan(packets, false, rest)
    ensures var more := Split(rest + chunk);
      Split(s + chunk) == Scan(packets + more.packets, more.stopped, more.rest)
  {
    hide Split;
    SplitExtends(s, chunk);
  }

  /**
   Reads a whole stream, where `offered(i)` is how much the network offers at the i-th read:
   the packets and the verdict do not depend on how the stream was cut.
   */
  method ReadStream(stream: seq<byte>, offered: nat -> nat) returns (packets: seq<Packet>, stopped: bool)
    ensures packets == Split(stream).packets && stopped == Split(stream).stopped
  {
    hide Split, Incomplete, Prepend;
    var reader := new Reader();
    var taken, i := 0, 0;
    packets, stopped := [], false;
    assert stream[..0] == [];
    SplitNothing();
    while taken < |stream|
      invariant taken <= |stream| && fresh(reader) && fresh(reader.buffer) && reader.Valid()
      invariant Split(stream[..taken]) == Scan(packets, false, reader.Pending())
      invariant !stopped
      decreases |stream| - taken
    {
      var window := BUFFER_SIZE - reader.available;
      var length := Min(Min(if offered(i) == 0 then 1 else offered(i), window), |stream| - taken);
      var chunk := stream[taken..taken + length];
      SplitMore(stream[..taken], chunk, packets, reader.Pending());
      assert stream[..taken] + chunk == stream[..taken + length];
      var more: seq<Packet>;
      more, stopped := reader.Receive(chunk);
      packets := packets + more;
      taken, i := taken + length, i + 1;
      if stopped {
        SplitExtends(stream[..taken], stream[taken..]);
        assert stream == stream[..taken] + stream[taken..];
        return;
      }
    }
    assert stream[..taken] == stream;
  }
}
