/** `SubscriberSession_Impl` with its fields updated in place. The strand of Asio is the queue
    of posted tasks; a pending operation of Asio is `op`. */
module SubscriberSide {
  import opened Bytes
  import opened TcpHeader
  import opened FrameReader
  import opened SubscriberProtocol

  class SubscriberSession {
    const maxReconnectionAttempts: int
    const publisherCount: nat          // size of the publisher list
    var retriesLeft: int
    var canceled: bool
    var connectedPublisher: Option<nat>
    var synchronousCallback: Option<nat>

    /** What the session leaves in Asio (the operation in progress, the strand) and its history.
        `Model` takes the rest of the state from the fields above. */
    ghost var trail: Subscription

    ghost function Model(): Subscription
      reads this
    {
      trail.(limit := maxReconnectionAttempts, publishers := publisherCount, retriesLeft := retriesLeft,
             canceled := canceled, connected := connectedPublisher, callback := synchronousCallback)
    }

    constructor (publisherCount: nat, maxReconnectionAttempts: int, callback: nat)
      requires 0 < publisherCount
      ensures Model() == NewSubscription(maxReconnectionAttempts, publisherCount, callback)
    {
      this.maxReconnectionAttempts, this.publisherCount := maxReconnectionAttempts, publisherCount;
      retriesLeft, canceled, connectedPublisher, synchronousCallback := maxReconnectionAttempts, false, None, None;
      trail := NewSubscription(maxReconnectionAttempts, publisherCount, callback);
    }

    // ----- Connecting -----

    method Start()
      modifies this
      ensures Model() == Started(old(Model()))
    {
      trail := trail.(started := true);
      if canceled {
        return;
      }
      ResolveEndpoint(0);
    }

    method ResolveEndpoint(index: nat)
      modifies this
      ensures Model() == Resolve(old(Model()), index)
    {
      if canceled {
        ConnectionFailedHandler();
        return;
      }
      trail := trail.(op := Some(Resolving(index)), resolves := trail.resolves + 1,
                      attempts := if index == 0 then trail.attempts + 1 else trail.attempts);
    }

    /** Completion of the resolver call for entry `index` of the publisher list. */
    method OnResolved(index: nat, failed: bool)
      requires trail.op == Some(Resolving(index))
      modifies this
      ensures Model() == Resolved(old(Model()), index, failed)
    {
      trail := trail.(op := None);
      if failed {
        if index + 1 < publisherCount {
          ResolveEndpoint(index + 1);
        } else {
          ConnectionFailedHandler();
        }
      } else {
        ConnectToEndpoint(index);
      }
    }

    method ConnectToEndpoint(index: nat)
      modifies this
      ensures Model() == Begin(old(Model()), Connecting(index))
    {
      if canceled {
        ConnectionFailedHandler();
        return;
      }
      trail := trail.(op := Some(Connecting(index)));
    }

    /** Completion of the connect to entry `index`; a connection starts with an empty stream. */
    method OnConnected(index: nat, failed: bool)
      requires trail.op == Some(Connecting(index))
      modifies this
      ensures Model() == Connected(old(Model()), index, failed)
    {
      trail := trail.(op := None);
      if failed {
        ConnectionFailedHandler();
        return;
      }
      connectedPublisher := Some(index);
      NewStream();
      SendProtocolHandshakeRequest();
    }

    ghost method NewStream()
      modifies this`trail
      ensures Model() == old(Model()).(inbound := [], settled := 0, messages := [], base := |old(trail.received)|)
    {
      trail := trail.(inbound := [], settled := 0, messages := [], base := |trail.received|);
    }

    method SendProtocolHandshakeRequest()
      modifies this`connectedPublisher, this`retriesLeft, this`trail
      ensures Model() == Begin(old(Model()), Requesting)
    {
      if canceled {
        ConnectionFailedHandler();
        return;
      }
      trail := trail.(op := Some(Requesting));
    }

    /** Completion of the handshake request write, on the strand. */
    method OnRequestSent(failed: bool)
      modifies this
      ensures Model() == if failed then ConnectionFailed(old(Model())) else Begin(old(Model()), Reading(Length))
    {
      if failed {
        ConnectionFailedHandler();
        return;
      }
      ReadHeaderLength();
    }

    method ConnectionFailedHandler()
      modifies this`connectedPublisher, this`retriesLeft, this`trail
      ensures Model() == ConnectionFailed(old(Model()))
    {
      connectedPublisher := None;
      if !canceled && (retriesLeft < 0 || retriesLeft > 0) {
        if retriesLeft > 0 {
          retriesLeft := retriesLeft - 1;
        }
        trail := trail.(retries := trail.retries + 1, op := Some(Backoff));
      } else {
        trail := trail.(closes := trail.closes + 1);
      }
    }

    /** Completion of the wait before a retry. */
    method OnRetryTimer(failed: bool)
      requires trail.op == Some(Backoff)
      modifies this
      ensures Model() == TimerEnded(old(Model()), failed)
    {
      trail := trail.(op := None);
      if failed {
        trail := trail.(closes := trail.closes + 1);
        return;
      }
      ResolveEndpoint(0);
    }

    // ----- Receiving -----

    method ReadHeaderLength()
      modifies this
      ensures Model() == Begin(old(Model()), Reading(Length))
    {
      if canceled {
        ConnectionFailedHandler();
        return;
      }
      trail := trail.(op := Some(Reading(Length)));
    }

    /** Completion of the header length read. */
    method OnHeaderLength(bytes: seq<byte>)
      requires |bytes| == SIZE_FIELD
      modifies this
      ensures Model() == AfterRead(old(Model()), Arrival(Length, bytes))
    {
      trail := trail.(inbound := trail.inbound + bytes);
      WidthsOfTheProtocol();
      DecodeThenEncode(bytes);
      ReadHeaderContent(FromLittleEndian(bytes));
    }

    method ReadHeaderContent(headerSize: uint16)
      modifies this
      ensures Model() ==
        if headerSize < SIZE_FIELD then ConnectionFailed(old(Model()))
        else Begin(old(Model()), Reading(Content(headerSize)))
    {
      if canceled {
        ConnectionFailedHandler();
        return;
      }
      if headerSize < SIZE_FIELD {
        ConnectionFailedHandler();
        return;
      }
      trail := trail.(op := Some(Reading(Content(headerSize))));
    }

    /** Completion of the header content read for a header of `headerSize` bytes. */
    method OnHeaderContent(headerSize: AcceptedSize, bytes: seq<byte>)
      requires |bytes| == Want(Content(headerSize))
      modifies this
      ensures Model() == AfterRead(old(Model()), Arrival(Content(headerSize), bytes))
    {
      trail := trail.(inbound := trail.inbound + bytes);
      var header := Received(headerSize, bytes);
      var surplus: uint16 := if headerSize > HEADER_SIZE then headerSize - HEADER_SIZE else 0;
      if surplus > 0 {
        DiscardDataBetweenHeaderAndPayload(header, surplus);
      } else {
        ReadPayload(header);
      }
    }

    method DiscardDataBetweenHeaderAndPayload(header: Header, count: uint16)
      modifies this
      ensures Model() == Begin(old(Model()), Reading(Discard(header, count)))
    {
      if canceled {
        ConnectionFailedHandler();
        return;
      }
      trail := trail.(op := Some(Reading(Discard(header, count))));
    }

    /** Completion of the read that skips what a longer header brings along. */
    method OnDiscarded(header: Header, count: uint16, bytes: seq<byte>)
      requires 0 < count == |bytes|
      modifies this
      ensures Model() == AfterRead(old(Model()), Arrival(Discard(header, count), bytes))
    {
      trail := trail.(inbound := trail.inbound + bytes);
      ReadPayload(header);
    }

    method ReadPayload(header: Header)
      modifies this
      ensures Model() ==
        if old(canceled) then ConnectionFailed(old(Model()))
        else if header.dataSize == 0 then
          Begin(old(Model()).(empties := old(trail.empties) + 1, settled := |old(trail.inbound)|), Reading(Length))
        else Begin(old(Model()), Reading(Payload(header)))
    {
      if canceled {
        ConnectionFailedHandler();
        return;
      }
      if header.dataSize == 0 {
        trail := trail.(empties := trail.empties + 1, settled := |trail.inbound|);
        ReadHeaderLength();
        return;
      }
      trail := trail.(op := Some(Reading(Payload(header))));
    }

    /** Completion of the payload read: refill the retries, then act on the message type. */
    method OnPayload(header: Header, bytes: seq<byte>)
      requires 0 < header.dataSize == |bytes|
      modifies this
      ensures Model() == AfterRead(old(Model()), Arrival(Payload(header), bytes))
    {
      trail := trail.(inbound := trail.inbound + bytes);
      NoteMessage(Frame(header.kind, bytes));
      hide Noted;
      if header.kind == PROTOCOL_HANDSHAKE {
        var protocolVersion := bytes[0];
        if protocolVersion > 0 {
          ConnectionFailedHandler();
          return;
        }
      } else if header.kind == REGULAR_PAYLOAD {
        PostTask(Deliver(bytes));
      }
      PostTask(ReadNext);
    }

    /** Resets the number of retries left and records the message. */
    method NoteMessage(frame: Frame)
      modifies this`retriesLeft, this`trail
      ensures Model() == Noted(old(Model()), frame)
    {
      trail := Noted(Model(), frame);
      retriesLeft := maxReconnectionAttempts;
    }

    /** A read of any stage ends with an error. */
    method OnReadError()
      modifies this
      ensures Model() == ConnectionFailed(old(Model()))
    {
      ConnectionFailedHandler();
    }

    /** `asio::post` to the strand. */
    method PostTask(ghost task: Task)
      modifies this`trail
      ensures Model() == Post(old(Model()), task)
    {
      trail := trail.(posted := trail.posted + [task]);
    }

    // ----- The strand -----

    /** The write of the handshake request ends: its completion is queued on the strand. */
    method OnWriteEnded(failed: bool)
      requires trail.op == Some(Requesting)
      modifies this
      ensures Enabled(old(Model()), WriteEnded(failed)) && Model() == Step(old(Model()), WriteEnded(failed))
    {
      trail := trail.(op := None);
      PostTask(Requested(failed));
    }

    /** The pending read has all its bytes. */
    method OnReadEnded(ghost stage: Stage, bytes: seq<byte>)
      requires trail.op == Some(Reading(stage)) && ValidStage(stage) && |bytes| == Want(stage)
      modifies this
      ensures Enabled(old(Model()), ReadEnded(bytes)) && Model() == Step(old(Model()), ReadEnded(bytes))
    {
      trail := trail.(op := None);
      PostTask(ReadDone(Arrival(stage, bytes)));
    }

    /** The pending read fails. */
    method OnReadAborted(ghost stage: Stage)
      requires trail.op == Some(Reading(stage))
      modifies this
      ensures Enabled(old(Model()), ReadAborted) && Model() == Step(old(Model()), ReadAborted)
    {
      trail := trail.(op := None);
      PostTask(ReadFailed(stage));
    }

    /** Each read has its own completion handler. */
    method OnRead(read: CompleteRead)
      modifies this
      ensures Model() == AfterRead(old(Model()), read)
    {
      match read.stage
      case Length => OnHeaderLength(read.bytes);
      case Content(size) => OnHeaderContent(size, read.bytes);
      case Discard(header, count) => OnDiscarded(header, count, read.bytes);
      case Payload(header) => OnPayload(header, read.bytes);
    }

    /** The callback task of a message, the strand's task number `position`. */
    method OnDeliver(payload: seq<byte>, ghost position: nat)
      modifies this
      ensures Model() ==
        if old(canceled) then ConnectionFailed(old(Model()).(skipped := old(trail.skipped) + [payload]))
        else old(Model()).(calls := old(trail.calls) + [Call(old(synchronousCallback), payload, position)])
    {
      if canceled {
        trail := trail.(skipped := trail.skipped + [payload]);
        ConnectionFailedHandler();
        return;
      }
      trail := trail.(calls := trail.calls + [Call(synchronousCallback, payload, position)]);
    }

    /** The strand runs its next task. */
    method RunNext(task: Task)
      requires trail.ran < |trail.posted| && task == trail.posted[trail.ran]
      modifies this
      ensures Model() == RunTask(old(Model()))
    {
      hide AfterRead, ConnectionFailed, Begin;
      ghost var position := trail.ran;
      trail := trail.(ran := trail.ran + 1);
      match task
      case Requested(failed) => OnRequestSent(failed);
      case ReadDone(read) => OnRead(read);
      case ReadFailed(_) => OnReadError();
      case Deliver(payload) => OnDeliver(payload, position);
      case ReadNext => ReadHeaderLength();
      case Install(callback) => synchronousCallback := Some(callback);
    }

    // ----- Public interface -----

    method SetSynchronousCallback(callback: nat)
      modifies this
      ensures Model() == CallbackSet(old(Model()), callback)
    {
      if canceled {
        return;
      }
      PostTask(Install(callback));
    }

    method Cancel()
      modifies this
      ensures Model() == old(Model()).(canceled := true)
    {
      var alreadyCanceled := canceled;
      canceled := true;
      if alreadyCanceled {
        return;
      }
    }
  }
}
