/**
 * The Python SDK's client (client.py): a configuration, a connected flag,
 * a transport that exists while connected, and a dict from PGN to the set
 * of handlers subscribed to it. The transport is reduced to the list of
 * frames handed to it; handlers are opaque identities and calling one is
 * recorded, not run.
 */
module PyClient {
  import opened Bits
  import opened J1939
  import opened PyFormat
  import opened PyCodec

  /** A handler callable, compared by identity as set members are. */
  type HandlerId = nat

  /** J1939ClientConfig. */
  datatype Config = Config(interfaceName: string, sourceAddress: int, transport: Option<string>, debug: bool)

  /** The `unsubscribe` closure on_pgn returns: it captures the PGN and the handler. */
  datatype Unsubscriber = Unsubscriber(pgn: int, handler: HandlerId)

  /** The handler dict keeps no PGN whose set is empty. */
  ghost predicate NoEmptySets(handlers: map<int, set<HandlerId>>)
  {
    forall pgn :: pgn in handlers ==> handlers[pgn] != {}
  }

  /** The `decorator` body of on_pgn: create the PGN's set if absent, then add the handler. */
  function Subscribe(handlers: map<int, set<HandlerId>>, pgn: int, h: HandlerId): (r: map<int, set<HandlerId>>)
    ensures pgn in r && h in r[pgn]
    ensures NoEmptySets(handlers) ==> NoEmptySets(r)
  {
    handlers[pgn := (if pgn in handlers then handlers[pgn] else {}) + {h}]
  }

  /**
   * The `unsubscribe` closure: discard the handler from the PGN's set and
   * drop the key once the set is empty; nothing happens when the key is gone.
   */
  function Unsubscribe(handlers: map<int, set<HandlerId>>, pgn: int, h: HandlerId): (r: map<int, set<HandlerId>>)
    ensures pgn !in handlers ==> r == handlers
    ensures NoEmptySets(handlers) ==> NoEmptySets(r)
    ensures pgn in r ==> h !in r[pgn]
  {
    if pgn in handlers && handlers[pgn] != {} then
      var rest := handlers[pgn] - {h};
      if rest == {} then handlers - {pgn} else handlers[pgn := rest]
    else handlers
  }

  /** After subscribing, a handler is registered for a PGN exactly when it was before or it is the new pair. */
  lemma SubscribeSpec(handlers: map<int, set<HandlerId>>, pgn: int, h: HandlerId, q: int, g: HandlerId)
    ensures var r := Subscribe(handlers, pgn, h);
      (q in r && g in r[q]) <==> (q in handlers && g in handlers[q]) || (q == pgn && g == h)
  {
  }

  /** After unsubscribing, a handler is registered for a PGN exactly when it was before and it is not the removed pair. */
  lemma UnsubscribeSpec(handlers: map<int, set<HandlerId>>, pgn: int, h: HandlerId, q: int, g: HandlerId)
    ensures var r := Unsubscribe(handlers, pgn, h);
      (q in r && g in r[q]) <==> (q in handlers && g in handlers[q]) && !(q == pgn && g == h)
  {
    if pgn in handlers && handlers[pgn] != {} && q == pgn {
      var rest := handlers[pgn] - {h};
      assert g in rest <==> g in handlers[pgn] && g != h;
    }
  }

  /** Subscribing the same handler twice keeps one copy. */
  lemma SubscribeIdempotent(handlers: map<int, set<HandlerId>>, pgn: int, h: HandlerId)
    ensures Subscribe(Subscribe(handlers, pgn, h), pgn, h) == Subscribe(handlers, pgn, h)
  {
    var once := Subscribe(handlers, pgn, h);
    assert once[pgn] + {h} == once[pgn];
  }

  /** Calling unsubscribe twice is the same as calling it once. */
  lemma UnsubscribeIdempotent(handlers: map<int, set<HandlerId>>, pgn: int, h: HandlerId)
    requires NoEmptySets(handlers)
    ensures Unsubscribe(Unsubscribe(handlers, pgn, h), pgn, h) == Unsubscribe(handlers, pgn, h)
  {
    var once := Unsubscribe(handlers, pgn, h);
    if pgn in once {
      assert once[pgn] - {h} == once[pgn];
    }
  }

  /** The returned unsubscribe undoes a subscription that added a new handler. */
  lemma UnsubscribeUndoesSubscribe(handlers: map<int, set<HandlerId>>, pgn: int, h: HandlerId)
    requires NoEmptySets(handlers) && !(pgn in handlers && h in handlers[pgn])
    ensures Unsubscribe(Subscribe(handlers, pgn, h), pgn, h) == handlers
  {
    var r := Unsubscribe(Subscribe(handlers, pgn, h), pgn, h);
    forall q | q in r || q in handlers
      ensures q in r && q in handlers && r[q] == handlers[q]
    {
      if q == pgn {
        assert (if pgn in handlers then handlers[pgn] else {}) + {h} - {h} ==
          if pgn in handlers then handlers[pgn] else {};
      }
    }
  }

  /** J1939Client, without the lock, the log and the platform probe. */
  class Client {
    var config: Config
    /** `_transport is not None`. */
    var transport: bool
    var connected: bool
    var handlers: map<int, set<HandlerId>>
    /** Every frame handed to a transport, oldest first. */
    var sent: seq<Frame>

    ghost predicate Valid()
      reads this
    {
      0 <= config.sourceAddress <= MaxOwnAddress &&
      NoEmptySets(handlers) &&
      (connected <==> transport)
    }

    /** The part of __init__ after the address check. */
    constructor (config: Config)
      requires 0 <= config.sourceAddress <= MaxOwnAddress
      ensures Valid() && this.config == config
      ensures !connected && !transport && handlers == map[] && sent == []
    {
      this.config := config;
      transport := false;
      connected := false;
      handlers := map[];
      sent := [];
    }

    /** connect: RuntimeError when already connected; otherwise a transport is created and the client connected. */
    method Connect() returns (err: Option<PyError>)
      requires Valid()
      modifies this`connected, this`transport
      ensures Valid()
      ensures old(connected) ==> (err == Some(RuntimeError("Already connected")) &&
        connected && transport == old(transport))
      ensures !old(connected) ==> err == None && connected && transport
    {
      if connected {
        return Some(RuntimeError("Already connected"));
      }
      transport := true;
      connected := true;
      err := None;
    }

    /** disconnect: nothing when not connected; otherwise drops the transport, clears the flag and every subscription. */
    method Disconnect()
      requires Valid()
      modifies this`connected, this`transport, this`handlers
      ensures Valid() && !connected && !transport
      ensures !old(connected) || !old(transport) ==> handlers == old(handlers)
      ensures old(connected) && old(transport) ==> handlers == map[]
    {
      if !connected || !transport {
        return;
      }
      transport := false;
      connected := false;
      handlers := map[];
    }

    /** on_pgn(pgn, handler), or the decorator form applied to it: subscribe, return the unsubscribe closure. */
    method OnPgn(pgn: int, handler: HandlerId) returns (unsubscribe: Unsubscriber)
      requires Valid()
      modifies this`handlers
      ensures Valid()
      ensures handlers == Subscribe(old(handlers), pgn, handler)
      ensures unsubscribe == Unsubscriber(pgn, handler)
    {
      handlers := Subscribe(handlers, pgn, handler);
      unsubscribe := Unsubscriber(pgn, handler);
    }

    /** Calling the closure on_pgn returned. */
    method CallUnsubscribe(unsubscribe: Unsubscriber)
      requires Valid()
      modifies this`handlers
      ensures Valid()
      ensures handlers == Unsubscribe(old(handlers), unsubscribe.pgn, unsubscribe.handler)
    {
      handlers := Unsubscribe(handlers, unsubscribe.pgn, unsubscribe.handler);
    }

    /**
     * request_pgn: RuntimeError and nothing sent when not connected;
     * otherwise one Request frame from this client's address carrying the
     * low three bytes of the PGN, stamped with the clock reading `now`.
     */
    method RequestPgn(pgn: int, destination: nat, now: real) returns (err: Option<PyError>)
      requires Valid()
      modifies this`sent
      ensures !connected || !transport ==> err == Some(RuntimeError("Not connected")) && sent == old(sent)
      ensures connected && transport ==> err == None && sent == old(sent) + [Frame(
        BuildJ1939Id(PgnRequest, config.sourceAddress, 6, destination),
        [pgn % 0x100, pgn / 0x100 % 0x100, pgn / 0x1_0000 % 0x100], now, true)]
    {
      if !connected || !transport {
        return Some(RuntimeError("Not connected"));
      }
      var requestData := [pgn % 0x100, pgn / 0x100 % 0x100, pgn / 0x1_0000 % 0x100];
      var canId := BuildJ1939Id(PgnRequest, config.sourceAddress, 6, destination);
      sent := sent + [Frame(canId, requestData, now, true)];
      err := None;
    }

    /**
     * send_pgn: RuntimeError and nothing sent when not connected; an
     * encoding error is raised and nothing sent; otherwise the encoded frame
     * at priority 6 is sent.
     */
    method SendPgn(pgn: int, data: map<string, Field>, destination: nat, now: real) returns (err: Option<PyError>)
      requires Valid()
      modifies this`sent
      ensures !connected || !transport ==> err == Some(RuntimeError("Not connected")) && sent == old(sent)
      ensures connected && transport && PgnPayload(pgn, data).Failure? ==>
        err == Some(PgnPayload(pgn, data).error) && sent == old(sent)
      ensures connected && transport && PgnPayload(pgn, data).Success? ==> err == None && sent == old(sent) + [Frame(
        BuildJ1939Id(pgn, config.sourceAddress, 6, destination), PgnPayload(pgn, data).value, now, true)]
    {
      if !connected || !transport {
        return Some(RuntimeError("Not connected"));
      }
      var frame := EncodeFrame(pgn, data, config.sourceAddress, 6, destination, now);
      if frame.Failure? {
        return Some(frame.error);
      }
      sent := sent + [frame.value];
      err := None;
    }

    /**
     * _handle_frame: decode the frame, copy the handler set of its PGN, and
     * call every handler of the copy exactly once, in the set's (unspecified)
     * order; a handler that raises is logged and the rest still run. Returns
     * the calls made and the handlers whose call raised, in call order.
     */
    method HandleFrame(frame: Frame, now: real, raising: set<HandlerId>)
      returns (message: Message, called: seq<HandlerId>, failed: seq<HandlerId>)
      ensures message == DecodeFrame(frame, now)
      ensures forall h :: h in called <==> message.pgn in handlers && h in handlers[message.pgn]
      ensures forall i, j :: 0 <= i < j < |called| ==> called[i] != called[j]
      ensures forall h :: h in failed <==> h in called && h in raising
    {
      message := DecodeFrame(frame, now);
      var snapshot := if message.pgn in handlers then handlers[message.pgn] else {};
      var remaining := snapshot;
      called, failed := [], [];
      while remaining != {}
        invariant remaining <= snapshot
        invariant forall h :: h in called <==> h in snapshot && h !in remaining
        invariant forall i, j :: 0 <= i < j < |called| ==> called[i] != called[j]
        invariant forall h :: h in failed <==> h in called && h in raising
        decreases |remaining|
      {
        var h :| h in remaining;
        called := called + [h];
        if h in raising {
          failed := failed + [h];
        }
        remaining := remaining - {h};
      }
    }
  }

  /** The ValueError message of __init__ for an address outside 0x00-0xFD. */
  function InvalidAddressMessage(sourceAddress: int): (message: string)
  {
    "Invalid source address: " + Decimal(sourceAddress) + ". Must be 0x00-0xFD"
  }

  /**
   * J1939Client(...): ValueError unless 0 <= source_address <= 0xFD;
   * otherwise a disconnected client with no subscriptions.
   */
  method NewClient(interfaceName: string, sourceAddress: int, transport: Option<string>, debug: bool)
    returns (r: Result<Client>)
    ensures r.Failure? <==> sourceAddress < 0 || sourceAddress > MaxOwnAddress
    ensures r.Failure? ==> r.error == ValueError(InvalidAddressMessage(sourceAddress))
    ensures r.Success? ==> (fresh(r.value) && r.value.Valid() &&
      r.value.config == Config(interfaceName, sourceAddress, transport, debug) &&
      !r.value.connected && r.value.handlers == map[] && r.value.sent == [])
  {
    if sourceAddress < 0 || sourceAddress > MaxOwnAddress {
      return Failure(ValueError(InvalidAddressMessage(sourceAddress)));
    }
    var client := new Client(Config(interfaceName, sourceAddress, transport, debug));
    r := Success(client);
  }

  /** The refused address can be read back from the error message. */
  lemma InvalidAddressReadBack(sourceAddress: int)
    ensures var m := InvalidAddressMessage(sourceAddress);
      ReadSigned(m[24..|m| - 19], 10) == sourceAddress
  {
    var m := InvalidAddressMessage(sourceAddress);
    assert m[24..|m| - 19] == Decimal(sourceAddress);
    DecimalRoundTrip(sourceAddress);
  }

  /**
   * request_pgn sends the payload send_pgn would send for a Request with
   * that requestedPGN, and a frame that decodes as a Request from the
   * client's address to a byte destination.
   */
  lemma RequestMatchesEncoder(pgn: int, sourceAddress: Byte, destination: Byte)
    ensures PgnPayload(PgnRequest, map["requestedPGN" := IntField(pgn)]) ==
      Success([pgn % 0x100, pgn / 0x100 % 0x100, pgn / 0x1_0000 % 0x100])
    ensures var p := ParseJ1939Id(BuildJ1939Id(PgnRequest, sourceAddress, 6, destination));
      p.pgn == PgnRequest && p.sourceAddress == sourceAddress && p.destinationAddress == destination
  {
    ParseBuild(PgnRequest, sourceAddress, 6, destination);
  }
}
