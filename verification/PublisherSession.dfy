/** `PublisherSession` with its fields updated in place. Operations of Asio appear as the
    history they leave: a pending read, the writes handed to the socket, the writes in flight. */
module PublisherSide {
  import opened Bytes
  import opened TcpHeader
  import opened FrameReader
  import opened SendProtocol

  class PublisherSession {
    var state: Phase
    var sendingInProgress: bool
    var nextBufferToSend: Option<Buffer>

    /** What the session leaves in Asio (the pending read, the writes in flight) and its history.
        `Model` takes the rest of the state from the fields above. */
    ghost var trail: Session

    ghost function Model(): Session
      reads this
    {
      trail.(phase := state, sending := sendingInProgress, next := nextBufferToSend)
    }

    constructor ()
      ensures Model() == NEW
    {
      state, sendingInProgress, nextBufferToSend := NotStarted, false, None;
      trail := NEW;
    }

    // ----- Start and stop -----

    method Start()
      requires state.NotStarted?
      modifies this
      ensures Model() == Started(old(Model()))
    {
      state := Handshaking;
      ReadHeaderLength();
    }

    method Cancel()
      modifies this
      ensures Model() == Closed(old(Model()))
    {
      SessionClosedHandler();
    }

    method SessionClosedHandler()
      modifies this
      ensures Model() == Closed(old(Model()))
    {
      var previousState := state;
      state := Canceled;
      if previousState == Canceled {
        return;
      }
      trail := trail.(closes := trail.closes + 1);
    }

    // ----- Reading the handshake request -----

    /** Starts the asynchronous read of stage `st`. */
    ghost method AsyncRead(st: Stage)
      modifies this`trail
      ensures Model() == old(Model()).(pending := Some(st))
    {
      trail := trail.(pending := Some(st));
    }

    /** The pending read completes: it is no longer pending, and its bytes are consumed. */
    ghost method ReadCompletes(bytes: seq<byte>)
      modifies this`trail
      ensures Model() == old(Model()).(pending := None, consumed := old(trail.consumed) + bytes)
    {
      trail := trail.(pending := None, consumed := trail.consumed + bytes);
    }

    method ReadHeaderLength()
      modifies this`trail
      ensures Model() == if state.Canceled? then old(Model()) else old(Model()).(pending := Some(Length))
    {
      if state == Canceled {
        return;
      }
      AsyncRead(Length);
    }

    /** Completion of the header length read, with or without an error. */
    method OnHeaderLength(failed: bool, bytes: seq<byte>)
      requires trail.pending == Some(Length) && (failed || |bytes| == SIZE_FIELD)
      modifies this
      ensures Model() == if failed then ReadFailed(old(Model())) else ReadDone(old(Model()), bytes)
    {
      ReadCompletes(if failed then [] else bytes);
      if failed {
        SessionClosedHandler();
        return;
      }
      DecodeThenEncode(bytes);
      WidthsOfTheProtocol();
      ReadHeaderContent(FromLittleEndian(bytes));
    }

    method ReadHeaderContent(headerSize: uint16)
      modifies this
      ensures Model() ==
        if old(state).Canceled? then old(Model())
        else if headerSize < SIZE_FIELD then Closed(old(Model()))
        else old(Model()).(pending := Some(Content(headerSize)))
    {
      if state == Canceled {
        return;
      }
      if headerSize < SIZE_FIELD {
        SessionClosedHandler();
        return;
      }
      AsyncRead(Content(headerSize));
    }

    /** Completion of the header content read for a header of `headerSize` bytes. */
    method OnHeaderContent(headerSize: AcceptedSize, failed: bool, bytes: seq<byte>)
      requires trail.pending == Some(Content(headerSize))
      requires failed || |bytes| == Want(Content(headerSize))
      modifies this
      ensures Model() == if failed then ReadFailed(old(Model())) else ReadDone(old(Model()), bytes)
    {
      ReadCompletes(if failed then [] else bytes);
      if failed {
        SessionClosedHandler();
        return;
      }
      var header := Received(headerSize, bytes);
      var surplus: uint16 := if headerSize > HEADER_SIZE then headerSize - HEADER_SIZE else 0;
      if surplus > 0 {
        DiscardDataBetweenHeaderAndPayload(header, surplus);
      } else {
        ReadPayload(header);
      }
    }

    method DiscardDataBetweenHeaderAndPayload(header: Header, count: uint16)
      modifies this`trail
      ensures Model()
              == if state.Canceled? then old(Model()) else old(Model()).(pending := Some(Discard(header, count)))
    {
      if state == Canceled {
        return;
      }
      AsyncRead(Discard(header, count));
    }

    /** Completion of the read that skips what a longer header brings along. */
    method OnDiscarded(header: Header, count: uint16, failed: bool, bytes: seq<byte>)
      requires trail.pending == Some(Discard(header, count)) && 0 < count
      requires failed || |bytes| == count
      modifies this
      ensures Model() == if failed then ReadFailed(old(Model())) else ReadDone(old(Model()), bytes)
    {
      ReadCompletes(if failed then [] else bytes);
      if failed {
        SessionClosedHandler();
        return;
      }
      ReadPayload(header);
    }

    method ReadPayload(header: Header)
      modifies this
      ensures Model() ==
        if old(state).Canceled? then old(Model())
        else match AtPayload(header)
          case Next(st) => old(Model()).(pending := Some(st))
          case _ => Closed(old(Model()))
    {
      if state == Canceled {
        return;
      }
      if header.dataSize == 0 {
        SessionClosedHandler();
        return;
      }
      AsyncRead(Payload(header));
    }

    /** Completion of the payload read. */
    method OnPayload(header: Header, failed: bool, bytes: seq<byte>)
      requires trail.pending == Some(Payload(header)) && 0 < header.dataSize
      requires failed || |bytes| == header.dataSize
      modifies this
      ensures Model() == if failed then ReadFailed(old(Model())) else ReadDone(old(Model()), bytes)
    {
      ReadCompletes(if failed then [] else bytes);
      if failed {
        SessionClosedHandler();
        return;
      }
      if header.kind == PROTOCOL_HANDSHAKE {
        SendProtocolHandshakeResponse();
      } else {
        SessionClosedHandler();
      }
    }

    method SendProtocolHandshakeResponse()
      modifies this
      ensures Model() == Replied(old(Model()))
    {
      if state == Canceled {
        return;
      }
      SendBufferToClient(Reply);
      var oldState := state;
      state := Running;
      if oldState != Handshaking {
        state := oldState;
      }
    }

    // ----- Sending -----

    method SendDataBuffer(buffer: Buffer)
      modifies this
      ensures Model() == Offered(old(Model()), buffer)
    {
      if state == Canceled {
        return;
      }
      trail := trail.(accepted := trail.accepted + [buffer]);
      if state == Running && !sendingInProgress {
        sendingInProgress := true;
        SendBufferToClient(Data(buffer));
      } else {
        if nextBufferToSend.Some? {
          trail := trail.(dropped := trail.dropped + [Drop(nextBufferToSend.value, buffer)]);
        }
        nextBufferToSend := Some(buffer);
      }
    }

    /** Starts the asynchronous write of a data buffer or of the handshake response. */
    method SendBufferToClient(item: Item)
      modifies this`trail
      ensures Model() == Written(old(Model()), item)
    {
      if state == Canceled {
        return;
      }
      trail := trail.(initiated := trail.initiated + [item], outstanding := trail.outstanding + [item]);
    }

    /** Completion of the `k`-th write in flight. */
    method OnWriteComplete(ghost k: nat, failed: bool)
      requires k < |trail.outstanding|
      modifies this
      ensures Model() == if failed then WriteFailed(old(Model()), k) else WriteDone(old(Model()), k)
    {
      trail := trail.(outstanding := Without(trail.outstanding, k));
      if failed {
        SessionClosedHandler();
        return;
      }
      if state == Canceled {
        return;
      }
      if nextBufferToSend.Some? {
        var nextBuffer := nextBufferToSend.value;
        nextBufferToSend := None;
        SendBufferToClient(Data(nextBuffer));
      } else {
        sendingInProgress := false;
      }
    }
  }
}
