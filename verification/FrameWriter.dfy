/** How `Publisher_Impl::send` turns a list of sub-buffers into one frame, in a buffer that
    may still hold the bytes of an earlier message. */
module FrameWriter {
  import opened Bytes
  import opened TcpHeader
  import opened FrameReader

  /** A (pointer, size) pair: the memory behind the pointer, or a null pointer with a size. */
  datatype Part = Memory(bytes: seq<byte>) | Null(size: nat)

  function Size(p: Part): nat {
    match p
    case Memory(bytes) => |bytes|
    case Null(size) => size
  }

  function TotalSize(parts: seq<Part>): nat {
    if parts == [] then 0 else TotalSize(parts[..|parts| - 1]) + Size(parts[|parts| - 1])
  }

  /** The bytes of all sub-buffers that are not null, in order. */
  function Joined(parts: seq<Part>): seq<byte> {
    if parts == [] then []
    else
      var last := parts[|parts| - 1];
      Joined(parts[..|parts| - 1]) + (if last.Memory? then last.bytes else [])
  }

  predicate HasSizedNull(parts: seq<Part>) {
    exists i | 0 <= i < |parts| :: parts[i].Null? && parts[i].size > 0
  }

  /** `vector::resize`: keeps what fits, fills the rest with zeros. */
  function Resized(prior: seq<byte>, n: nat): (r: seq<byte>)
    ensures |r| == n
  {
    if n <= |prior| then prior[..n] else prior + Zeros(n - |prior|)
  }

  lemma {:induction false} SizesAddUp(parts: seq<Part>)
    ensures |Joined(parts)| <= TotalSize(parts)
    ensures |Joined(parts)| == TotalSize(parts) <==> !HasSizedNull(parts)
  {
    if parts != [] {
      var init, last := parts[..|parts| - 1], parts[|parts| - 1];
      SizesAddUp(init);
      if HasSizedNull(init) {
        var i :| 0 <= i < |init| && init[i].Null? && init[i].size > 0;
        assert parts[i] == init[i];
      } else if last.Null? && last.size > 0 {
        assert parts[|parts| - 1] == last;
      } else {
        assert forall i | 0 <= i < |init| :: init[i] == parts[i];
      }
    }
  }

  /** The buffer `send` hands to the sessions, given what the recycled buffer held before. */
  function Filled(parts: seq<Part>, prior: seq<byte>): seq<byte>
    requires HEADER_SIZE + TotalSize(parts) < 0x1_0000_0000_0000_0000
  {
    SizesAddUp(parts);
    EncodeHeader(Header(HEADER_SIZE, REGULAR_PAYLOAD, 0, TotalSize(parts))) + Joined(parts)
      + Resized(prior, HEADER_SIZE + TotalSize(parts))[HEADER_SIZE + |Joined(parts)|..]
  }

  function Overwritten(b: seq<byte>, position: nat, bytes: seq<byte>): seq<byte>
    requires position + |bytes| <= |b|
  {
    b[..position] + bytes + b[position + |bytes|..]
  }

  lemma OverwrittenNext(head: seq<byte>, resized: seq<byte>, bytes: seq<byte>)
    requires |head| + |bytes| <= |resized|
    ensures |head + resized[|head|..]| == |resized|
    ensures Overwritten(head + resized[|head|..], |head|, bytes)
            == (head + bytes) + resized[|head| + |bytes|..]
  {
  }

  /** `memcpy` of one sub-buffer to the current position. */
  method CopyInto(buffer: array<byte>, position: nat, bytes: seq<byte>)
    requires position + |bytes| <= buffer.Length
    modifies buffer
    ensures buffer[..] == Overwritten(old(buffer[..]), position, bytes)
  {
    forall k | 0 <= k < |bytes| { buffer[position + k] := bytes[k]; }
  }

  /** Sizes the buffer, writes the header, then copies sub-buffer after sub-buffer. */
  method FillBuffer(parts: seq<Part>, prior: seq<byte>) returns (buffer: array<byte>)
    requires HEADER_SIZE + TotalSize(parts) < 0x1_0000_0000_0000_0000
    ensures buffer[..] == Filled(parts, prior)
  {
    hide EncodeHeader, Resized, Overwritten;
    var entirePayloadSize := 0;
    for i := 0 to |parts|
      invariant entirePayloadSize == TotalSize(parts[..i])
    {
      entirePayloadSize := entirePayloadSize + Size(parts[i]);
      assert parts[..i + 1][..i] == parts[..i];
    }
    assert parts[..|parts|] == parts;
    var completeSize := HEADER_SIZE + entirePayloadSize;
    var resized := Resized(prior, completeSize);
    buffer := new byte[completeSize](i requires 0 <= i < |resized| => resized[i]);

    var header := EncodeHeader(Header(HEADER_SIZE, REGULAR_PAYLOAD, 0, entirePayloadSize));
    OverwrittenNext([], resized, header);
    assert buffer[..] == [] + resized[0..];
    CopyInto(buffer, 0, header);

    var _ := CopyParts(parts, buffer, header, resized);
  }

  lemma JoinedNothing(parts: seq<Part>)
    ensures Joined(parts[..0]) == [] && TotalSize(parts[..0]) == 0
  {
  }

  /** What one more sub-buffer adds to the joined bytes, behind whatever stands before them. */
  lemma JoinedNext(parts: seq<Part>, i: nat, header: seq<byte>)
    requires i < |parts|
    ensures TotalSize(parts[..i + 1]) == TotalSize(parts[..i]) + Size(parts[i])
    ensures header + Joined(parts[..i + 1])
            == (header + Joined(parts[..i])) + (if parts[i].Memory? then parts[i].bytes else [])
    ensures |Joined(parts[..i + 1])| == |Joined(parts[..i])| + (if parts[i].Memory? then |parts[i].bytes| else 0)
  {
    assert parts[..i + 1][..i] == parts[..i];
    Associative(header, Joined(parts[..i]), if parts[i].Memory? then parts[i].bytes else []);
  }

  /** The copy loop: every sub-buffer that is not null goes right behind the one before. */
  method CopyParts(parts: seq<Part>, buffer: array<byte>, ghost header: seq<byte>, ghost resized: seq<byte>)
    returns (position: nat)
    requires |header| == HEADER_SIZE && |resized| == HEADER_SIZE + TotalSize(parts)
    requires buffer[..] == header + resized[HEADER_SIZE..]
    modifies buffer
    ensures position == HEADER_SIZE + |Joined(parts)| <= |resized|
    ensures buffer[..] == header + Joined(parts) + resized[position..]
  {
    hide Overwritten, Joined, TotalSize;
    position := HEADER_SIZE;
    JoinedNothing(parts);
    for i := 0 to |parts|
      invariant position == HEADER_SIZE + |Joined(parts[..i])| <= HEADER_SIZE + TotalSize(parts[..i])
      invariant TotalSize(parts[..i]) <= TotalSize(parts)
      invariant buffer[..] == header + Joined(parts[..i]) + resized[position..]
    {
      ghost var head := header + Joined(parts[..i]);
      TotalGrows(parts, i + 1);
      JoinedNext(parts, i, header);
      if parts[i].Memory? && |parts[i].bytes| > 0 {
        OverwrittenNext(head, resized, parts[i].bytes);
        CopyInto(buffer, position, parts[i].bytes);
        position := position + |parts[i].bytes|;
      }
    }
    assert parts[..|parts|] == parts;
  }

  lemma {:induction false} TotalGrows(parts: seq<Part>, i: nat)
    requires i <= |parts|
    ensures TotalSize(parts[..i]) <= TotalSize(parts)
    decreases |parts| - i
  {
    if i < |parts| {
      TotalGrows(parts, i + 1);
      assert parts[..i + 1][..i] == parts[..i];
    } else {
      assert parts[..i] == parts;
    }
  }

  /** `send` produces the frame of the joined sub-buffers, whatever the recycled buffer held,
      exactly when no null sub-buffer claims a size. */
  lemma EncoderExact(parts: seq<Part>, prior: seq<byte>)
    requires HEADER_SIZE + TotalSize(parts) < 0x1_0000_0000_0000_0000
    ensures HEADER_SIZE + |Joined(parts)| < 0x1_0000_0000_0000_0000
    ensures Filled(parts, prior) == DataFrame(Joined(parts)) <==> !HasSizedNull(parts)
  {
    SizesAddUp(parts);
    var f := Filled(parts, prior);
    assert |f| == HEADER_SIZE + TotalSize(parts);
    if !HasSizedNull(parts) {
      assert f == DataFrame(Joined(parts));
    }
  }

  /** With a sized null sub-buffer, bytes of the recycled buffer show in the frame. */
  lemma SizedNullExposesOldBytes(parts: seq<Part>)
    requires HEADER_SIZE + TotalSize(parts) < 0x1_0000_0000_0000_0000
    ensures HasSizedNull(parts) <==> exists a, b :: Filled(parts, a) != Filled(parts, b)
  {
    SizesAddUp(parts);
    var n := HEADER_SIZE + TotalSize(parts);
    if HasSizedNull(parts) {
      var a, b := seq<byte>(n, _ => 0), seq<byte>(n, _ => 1);
      assert Filled(parts, a)[n - 1] == 0 && Filled(parts, b)[n - 1] == 1;
    } else {
      forall a, b ensures Filled(parts, a) == Filled(parts, b) {
        EncoderExact(parts, a);
        EncoderExact(parts, b);
      }
    }
  }

  lemma FilledLayout(parts: seq<Part>, prior: seq<byte>)
    requires HEADER_SIZE + TotalSize(parts) < 0x1_0000_0000_0000_0000
    ensures var f := Filled(parts, prior);
      && |f| == HEADER_SIZE + TotalSize(parts)
      && f == EncodeHeader(Header(HEADER_SIZE, REGULAR_PAYLOAD, 0, TotalSize(parts))) + f[HEADER_SIZE..]
      && Joined(parts) <= f[HEADER_SIZE..]
  {
    hide EncodeHeader, Resized, Joined, TotalSize;
    SizesAddUp(parts);
  }

  /** Every frame of `send` is read back as one regular frame of the announced length that
      starts with the joined sub-buffers, so the receiver stays in frame sync even then. */
  lemma FilledDecodes(parts: seq<Part>, prior: seq<byte>, tail: seq<byte>)
    requires HEADER_SIZE + TotalSize(parts) < 0x1_0000_0000_0000_0000
    ensures var f := Filled(parts, prior);
      HeadOf(f + tail) == Whole(|f|, Frame(REGULAR_PAYLOAD, f[HEADER_SIZE..]))
    ensures Joined(parts) <= Filled(parts, prior)[HEADER_SIZE..]
    ensures |Filled(parts, prior)| == HEADER_SIZE + TotalSize(parts)
  {
    var h, f := Header(HEADER_SIZE, REGULAR_PAYLOAD, 0, TotalSize(parts)), Filled(parts, prior);
    FilledLayout(parts, prior);
    hide HeadOf, Filled, Joined, EncodeHeader;
    assert EncodeHeader(h) + [] == EncodeHeader(h);
    HeadOfWireFrame(WireFrame(h, [], f[HEADER_SIZE..]), tail);
  }
}
