/**
 * The C SDK's client (e32_j1939.c): a configuration, a connected flag and a
 * sixteen-slot subscription table with active flags and a counter, all
 * updated in place. Handler function pointers and user-data pointers are
 * opaque identifiers; a dispatched frame yields the list of handler calls it
 * makes, in slot order.
 */
module CClient {
  import opened Bits
  import opened J1939
  import opened CCodec

  /** MAX_PGN_HANDLERS. */
  const MaxPgnHandlers: nat := 16

  /** A handler function pointer; 0 stands for NULL. */
  type HandlerId = nat
  const NullHandler: HandlerId := 0

  /** A user-data pointer, passed back to the handler unchanged. */
  type UserData = nat

  /** pgn_subscription_t. */
  datatype Subscription = Subscription(pgn: U32, handler: HandlerId, userData: UserData, active: bool)

  /** A zero-filled slot. */
  const EmptySlot := Subscription(0, NullHandler, 0, false)

  /** e32_transport_type_t. */
  datatype TransportKind = Auto | SocketCan | Stm32BxCan | Esp32Twai | Virtual

  /** e32_j1939_config_t. */
  datatype Config = Config(
    interfaceName: string,
    sourceAddress: Byte,
    transport: TransportKind,
    bitrate: U32,
    debug: bool)

  /**
   * One call `handler(&message, user_data)` made by dispatch. The message
   * is not recorded per call: every call receives the same message, the
   * one DispatchFrame returns.
   */
  datatype Invocation = Invocation(handler: HandlerId, userData: UserData)

  /* ------------------------------------------------------------------ */
  /* The subscription table as a value                                   */
  /* ------------------------------------------------------------------ */

  /** The number of active slots. */
  function ActiveCount(table: seq<Subscription>): (n: nat)
    ensures n <= |table|
  {
    if table == [] then 0
    else (if table[0].active then 1 else 0) + ActiveCount(table[1..])
  }

  /** The lowest inactive slot, or |table| when every slot is active. */
  function FirstFree(table: seq<Subscription>): (i: nat)
    ensures i <= |table|
    ensures forall j :: 0 <= j < i ==> table[j].active
    ensures i < |table| ==> !table[i].active
  {
    if table == [] then 0
    else if !table[0].active then 0
    else 1 + FirstFree(table[1..])
  }

  /** The lowest active slot subscribed to `pgn`, or |table| when there is none. */
  function FirstMatch(table: seq<Subscription>, pgn: int): (i: nat)
    ensures i <= |table|
    ensures forall j :: 0 <= j < i ==> !(table[j].active && table[j].pgn == pgn)
    ensures i < |table| ==> table[i].active && table[i].pgn == pgn
  {
    if table == [] then 0
    else if table[0].active && table[0].pgn == pgn then 0
    else 1 + FirstMatch(table[1..], pgn)
  }

  /** The calls dispatch makes for `pgn`: every active matching slot, in ascending slot order. */
  function Matching(table: seq<Subscription>, pgn: int): (calls: seq<Invocation>)
    ensures |calls| <= |table|
  {
    if table == [] then []
    else
      var last := table[|table| - 1];
      Matching(table[..|table| - 1], pgn) +
        (if last.active && last.pgn == pgn then [Invocation(last.handler, last.userData)] else [])
  }

  /** Replacing one slot changes the count by the difference of the two active flags. */
  lemma {:induction false} ActiveCountUpdate(table: seq<Subscription>, i: nat, s: Subscription)
    requires i < |table|
    ensures ActiveCount(table[i := s]) ==
      ActiveCount(table) - (if table[i].active then 1 else 0) + (if s.active then 1 else 0)
    decreases |table|
  {
    if i > 0 {
      ActiveCountUpdate(table[1..], i - 1, s);
      assert table[i := s][1..] == table[1..][i - 1 := s];
    }
  }

  /** A table with no active slot counts zero. */
  lemma {:induction false} ActiveCountNone(table: seq<Subscription>)
    requires forall i :: 0 <= i < |table| ==> !table[i].active
    ensures ActiveCount(table) == 0
    decreases |table|
  {
    if table != [] {
      ActiveCountNone(table[1..]);
    }
  }

  /** There is no free slot exactly when every slot is counted. */
  lemma {:induction false} FullIffCounted(table: seq<Subscription>)
    ensures FirstFree(table) == |table| <==> ActiveCount(table) == |table|
    decreases |table|
  {
    if table != [] {
      FullIffCounted(table[1..]);
    }
  }

  /** Dispatch over two halves of a table is dispatch over the first half, then the second. */
  lemma {:induction false} MatchingAppend(a: seq<Subscription>, b: seq<Subscription>, pgn: int)
    ensures Matching(a + b, pgn) == Matching(a, pgn) + Matching(b, pgn)
    decreases |b|
  {
    if b != [] {
      var b' := b[..|b| - 1];
      assert (a + b)[..|a + b| - 1] == a + b';
      MatchingAppend(a, b', pgn);
    } else {
      assert a + b == a;
    }
  }

  /** A call is made exactly for each active slot subscribed to the PGN, with that slot's user data. */
  lemma {:induction false} MatchingMember(table: seq<Subscription>, pgn: int, call: Invocation)
    ensures call in Matching(table, pgn) <==>
      exists i :: 0 <= i < |table| && table[i].active && table[i].pgn == pgn &&
        call == Invocation(table[i].handler, table[i].userData)
    decreases |table|
  {
    if table != [] {
      var init := table[..|table| - 1];
      MatchingMember(init, pgn, call);
      if exists i :: 0 <= i < |init| && init[i].active && init[i].pgn == pgn &&
          call == Invocation(init[i].handler, init[i].userData) {
        var i :| 0 <= i < |init| && init[i].active && init[i].pgn == pgn &&
          call == Invocation(init[i].handler, init[i].userData);
        assert table[i] == init[i];
      }
    }
  }

  /** Nothing is called exactly when no active slot is subscribed to the PGN. */
  lemma {:induction false} MatchingEmpty(table: seq<Subscription>, pgn: int)
    ensures Matching(table, pgn) == [] <==> FirstMatch(table, pgn) == |table|
    decreases |table|
  {
    if table != [] {
      var init := table[..|table| - 1];
      MatchingEmpty(init, pgn);
      var k := FirstMatch(table, pgn);
      if k < |table| - 1 {
        assert init[k] == table[k];
        assert FirstMatch(init, pgn) <= k;
      } else if k == |table| - 1 {
        assert FirstMatch(init, pgn) == |init|;
      } else {
        assert FirstMatch(init, pgn) == |init|;
      }
    }
  }

  /**
   * The first call dispatch makes is the lowest matching slot's, and
   * deactivating that slot drops exactly that call.
   */
  lemma MatchingAfterOff(table: seq<Subscription>, pgn: int)
    requires FirstMatch(table, pgn) < |table|
    ensures var k := FirstMatch(table, pgn);
      Matching(table, pgn) ==
        [Invocation(table[k].handler, table[k].userData)] + Matching(table[k := table[k].(active := false)], pgn)
  {
    var k := FirstMatch(table, pgn);
    var after := table[k := table[k].(active := false)];
    assert FirstMatch(table[..k], pgn) == k;
    MatchingEmpty(table[..k], pgn);
    MatchingSplit(table, k, pgn);
    MatchingSplit(after, k, pgn);
    assert after[..k] == table[..k] && after[k + 1..] == table[k + 1..];
    assert Matching([table[k]], pgn) == [Invocation(table[k].handler, table[k].userData)] by {
      assert [table[k]][..0] == [];
    }
    assert Matching([after[k]], pgn) == [] by {
      assert [after[k]][..0] == [];
    }
  }

  /** The calls for a table are those for the slots before k, slot k, and the slots after it. */
  lemma MatchingSplit(table: seq<Subscription>, k: nat, pgn: int)
    requires k < |table|
    ensures Matching(table, pgn) == Matching(table[..k], pgn) + Matching([table[k]], pgn) + Matching(table[k + 1..], pgn)
  {
    var pre, post := table[..k], table[k + 1..];
    assert table == pre + [table[k]] + post;
    MatchingAppend(pre + [table[k]], post, pgn);
    MatchingAppend(pre, [table[k]], pgn);
  }

  /* ------------------------------------------------------------------ */
  /* The client                                                          */
  /* ------------------------------------------------------------------ */

  /** struct e32_j1939_client, without the transport handle. */
  class Client {
    var config: Config
    var connected: bool
    var subscriptions: array<Subscription>
    var subscriptionCount: nat

    /** The table has sixteen slots and the counter is the number of active ones. */
    ghost predicate Valid()
      reads this, subscriptions
    {
      subscriptions.Length == MaxPgnHandlers &&
      subscriptionCount == ActiveCount(subscriptions[..])
    }

    /** The malloc, memset and memcpy of e32_j1939_create. */
    constructor (config: Config)
      ensures Valid() && fresh(subscriptions)
      ensures this.config == config && !connected && subscriptionCount == 0
      ensures subscriptions[..] == seq(MaxPgnHandlers, _ => EmptySlot)
    {
      this.config := config;
      connected := false;
      subscriptions := new Subscription[MaxPgnHandlers](_ => EmptySlot);
      subscriptionCount := 0;
      new;
      ActiveCountNone(subscriptions[..]);
    }

    /** e32_j1939_connect: refused when already connected, otherwise marks the client connected. */
    method Connect() returns (status: Status)
      modifies this`connected
      ensures old(connected) ==> status == AlreadyConnected && connected
      ensures !old(connected) ==> status == Ok && connected
    {
      if connected {
        return AlreadyConnected;
      }
      connected := true;
      status := Ok;
    }

    /**
     * e32_j1939_disconnect: nothing to do when not connected; otherwise it
     * clears the flag, the counter and every slot.
     */
    method Disconnect() returns (status: Status)
      requires Valid()
      modifies this`connected, this`subscriptionCount, subscriptions
      ensures status == Ok && Valid() && !connected
      ensures !old(connected) ==> (subscriptionCount == old(subscriptionCount) &&
        subscriptions[..] == old(subscriptions[..]))
      ensures old(connected) ==> (subscriptionCount == 0 &&
        subscriptions[..] == seq(MaxPgnHandlers, _ => EmptySlot))
    {
      if !connected {
        return Ok;
      }
      connected := false;
      subscriptionCount := 0;
      forall i | 0 <= i < subscriptions.Length {
        subscriptions[i] := EmptySlot;
      }
      ActiveCountNone(subscriptions[..]);
      status := Ok;
    }

    /**
     * e32_j1939_on_pgn: a NULL handler is refused; otherwise the lowest
     * inactive slot takes the subscription (the same PGN may be taken by
     * several slots), and a table with no inactive slot is refused.
     */
    method OnPgn(pgn: U32, handler: HandlerId, userData: UserData) returns (status: Status)
      requires Valid()
      modifies this`subscriptionCount, subscriptions
      ensures Valid()
      ensures handler == NullHandler ==> status == InvalidParam
      ensures handler != NullHandler && FirstFree(old(subscriptions[..])) == MaxPgnHandlers ==>
        status == NoMemory
      ensures status != Ok ==> (subscriptionCount == old(subscriptionCount) &&
        subscriptions[..] == old(subscriptions[..]))
      ensures status == Ok <==> handler != NullHandler && old(subscriptionCount) < MaxPgnHandlers
      ensures status == Ok ==> (subscriptionCount == old(subscriptionCount) + 1 &&
        subscriptions[..] ==
          old(subscriptions[..])[FirstFree(old(subscriptions[..])) := Subscription(pgn, handler, userData, true)])
    {
      FullIffCounted(subscriptions[..]);
      if handler == NullHandler {
        return InvalidParam;
      }
      var i := 0;
      while i < MaxPgnHandlers
        invariant 0 <= i <= MaxPgnHandlers
        invariant forall j :: 0 <= j < i ==> subscriptions[j].active
      {
        if !subscriptions[i].active {
          assert i == FirstFree(subscriptions[..]);
          ActiveCountUpdate(subscriptions[..], i, Subscription(pgn, handler, userData, true));
          subscriptions[i] := Subscription(pgn, handler, userData, true);
          subscriptionCount := subscriptionCount + 1;
          return Ok;
        }
        i := i + 1;
      }
      assert FirstFree(subscriptions[..]) == MaxPgnHandlers;
      status := NoMemory;
    }

    /**
     * e32_j1939_off_pgn: deactivates the lowest active slot subscribed to
     * `pgn`, leaving its other fields as they were; no match is not an error.
     */
    method OffPgn(pgn: U32) returns (status: Status)
      requires Valid()
      modifies this`subscriptionCount, subscriptions
      ensures Valid() && status == Ok
      ensures FirstMatch(old(subscriptions[..]), pgn) == MaxPgnHandlers ==>
        subscriptionCount == old(subscriptionCount) && subscriptions[..] == old(subscriptions[..])
      ensures FirstMatch(old(subscriptions[..]), pgn) < MaxPgnHandlers ==>
        var k := FirstMatch(old(subscriptions[..]), pgn);
        subscriptionCount == old(subscriptionCount) - 1 &&
        subscriptions[..] == old(subscriptions[..])[k := old(subscriptions[k]).(active := false)]
    {
      var i := 0;
      while i < MaxPgnHandlers
        invariant 0 <= i <= MaxPgnHandlers
        invariant forall j :: 0 <= j < i ==> !(subscriptions[j].active && subscriptions[j].pgn == pgn)
      {
        if subscriptions[i].active && subscriptions[i].pgn == pgn {
          assert i == FirstMatch(subscriptions[..], pgn);
          var off := subscriptions[i].(active := false);
          ActiveCountUpdate(subscriptions[..], i, off);
          subscriptions[i] := off;
          subscriptionCount := subscriptionCount - 1;
          return Ok;
        }
        i := i + 1;
      }
      assert FirstMatch(subscriptions[..], pgn) == MaxPgnHandlers;
      status := Ok;
    }

    /**
     * e32_j1939_request_pgn: refused when disconnected; otherwise the frame
     * handed to the transport is the encoded Request from this client's address.
     */
    method RequestPgn(pgn: U32, destination: Byte) returns (status: Status, frame: CanFrame?)
      ensures status == NotConnected <==> !connected
      ensures status != NotConnected ==> status == Ok
      ensures status == Ok <==> frame != null
      ensures frame != null ==> (frame.Valid() &&
        frame.id == BuildId(PgnRequest, config.sourceAddress, 6, destination) &&
        frame.dlc == 3 && frame.isExtended && frame.timestamp == 0 &&
        frame.data[..] == RequestPayload(pgn) + Zeros(5))
    {
      if !connected {
        return NotConnected, null;
      }
      frame := new CanFrame();
      EncodeRequest(pgn, config.sourceAddress, destination, frame);
      status := Ok;
    }

    /**
     * e32_j1939_send_raw: a length of 0 or above 8 is refused before the
     * connection is looked at; otherwise the frame carries the first `len`
     * bytes, zero-padded, under the identifier built from the arguments.
     */
    method SendRaw(pgn: U32, data: seq<Byte>, len: Byte, destination: Byte, priority: Byte)
      returns (status: Status, frame: CanFrame?)
      requires 1 <= len <= CanMaxDataLen ==> len <= |data|
      ensures status == InvalidParam <==> len == 0 || len > CanMaxDataLen
      ensures status == NotConnected <==> 1 <= len <= CanMaxDataLen && !connected
      ensures status == Ok <==> frame != null
      ensures status in {Ok, InvalidParam, NotConnected}
      ensures frame != null ==> (frame.Valid() &&
        frame.id == BuildId(pgn, config.sourceAddress, priority, destination) &&
        frame.dlc == len && frame.isExtended && frame.timestamp == 0 &&
        frame.data[..] == data[..len] + Zeros(CanMaxDataLen - len))
    {
      if len == 0 || len > CanMaxDataLen {
        return InvalidParam, null;
      }
      if !connected {
        return NotConnected, null;
      }
      frame := new CanFrame();
      frame.id := BuildId(pgn, config.sourceAddress, priority, destination);
      frame.dlc := len;
      frame.isExtended := true;
      forall i | 0 <= i < len {
        frame.data[i] := data[i];
      }
      assert frame.data[..] == data[..len] + Zeros(CanMaxDataLen - len);
      status := Ok;
    }

    /** e32_j1939_send_engine_control: refused when disconnected, otherwise the encoded command. */
    method SendEngineControl(cmd: EngineControlCmd) returns (status: Status, frame: CanFrame?)
      ensures status == NotConnected <==> !connected
      ensures status != NotConnected ==> status == Ok
      ensures status == Ok <==> frame != null
      ensures frame != null ==> (frame.Valid() &&
        frame.id == BuildId(PgnEngineControlCmd, config.sourceAddress, 6, SaGlobal) &&
        frame.dlc == 8 && frame.isExtended && frame.timestamp == 0 &&
        frame.data[..] == EngineControlPayload(cmd))
    {
      if !connected {
        return NotConnected, null;
      }
      frame := new CanFrame();
      EncodeEngineControl(cmd, config.sourceAddress, frame);
      status := Ok;
    }

    /**
     * e32_j1939_dispatch_frame: decode the frame, then call the handler of
     * every active slot subscribed to the decoded PGN, in ascending slot
     * order, with that slot's user data. The table is only read. Decoding
     * always succeeds, so the early return after a failed decode is never taken.
     */
    method DispatchFrame(frame: CanFrame) returns (message: Message, calls: seq<Invocation>)
      requires Valid() && frame.Valid() && frame.dlc <= CanMaxDataLen
      ensures fresh(message) && message.Valid()
      ensures message.pgn == ParseId(frame.id).pgn
      ensures message.pgnName == GetPgnName(ParseId(frame.id).pgn)
      ensures message.sourceAddress == ParseId(frame.id).sourceAddress
      ensures message.destinationAddress == ParseId(frame.id).destinationAddress
      ensures message.priority == ParseId(frame.id).priority
      ensures message.timestamp == frame.timestamp
      ensures message.rawLen == frame.dlc
      ensures message.raw[..] == frame.data[..frame.dlc] + Zeros(CanMaxDataLen - frame.dlc)
      ensures message.Signals() == DecodeSpns(ParseId(frame.id).pgn, frame.data[..frame.dlc])
      ensures calls == Matching(subscriptions[..], ParseId(frame.id).pgn)
    {
      message := new Message();
      var status := DecodeFrame(frame, message);
      calls := CallsFor(message.pgn);
    }

    /** The dispatch loop: scan the sixteen slots in order and collect each matching call. */
    method CallsFor(pgn: int) returns (calls: seq<Invocation>)
      requires Valid()
      ensures calls == Matching(subscriptions[..], pgn)
    {
      calls := [];
      var i := 0;
      while i < MaxPgnHandlers
        invariant 0 <= i <= MaxPgnHandlers
        invariant calls == Matching(subscriptions[..i], pgn)
      {
        var s := subscriptions[i];
        assert subscriptions[..i + 1][..i] == subscriptions[..i];
        if s.active && s.pgn == pgn {
          calls := calls + [Invocation(s.handler, s.userData)];
        }
        i := i + 1;
      }
      assert subscriptions[..i] == subscriptions[..];
    }
  }

  /**
   * e32_j1939_create: a source address above 0xFD is refused; otherwise a
   * new disconnected client with the given configuration and an empty table.
   */
  method Create(config: Config) returns (status: Status, client: Client?)
    ensures status == InvalidParam <==> config.sourceAddress > MaxOwnAddress
    ensures status != InvalidParam ==> status == Ok
    ensures status == Ok <==> client != null
    ensures client != null ==> (fresh(client) && client.Valid() &&
      client.config == config && !client.connected && client.subscriptionCount == 0 &&
      client.subscriptions[..] == seq(MaxPgnHandlers, _ => EmptySlot))
  {
    if config.sourceAddress > MaxOwnAddress {
      return InvalidParam, null;
    }
    client := new Client(config);
    status := Ok;
  }

  /**
   * A successful subscription is reached by the next dispatch of its PGN:
   * the new slot's call is among the calls made.
   */
  lemma SubscribeThenDispatch(table: seq<Subscription>, pgn: U32, handler: HandlerId, userData: UserData)
    requires FirstFree(table) < |table|
    ensures Invocation(handler, userData) in
      Matching(table[FirstFree(table) := Subscription(pgn, handler, userData, true)], pgn)
  {
    var k := FirstFree(table);
    var after := table[k := Subscription(pgn, handler, userData, true)];
    MatchingMember(after, pgn, Invocation(handler, userData));
    assert after[k].active && after[k].pgn == pgn;
  }

  /**
   * off_pgn silences a PGN only when one slot was subscribed to it: the
   * dispatch after it calls exactly the handlers of the remaining slots,
   * so with one subscriber nothing is called and with two the second one
   * still is.
   */
  lemma OffThenDispatch(table: seq<Subscription>, pgn: U32)
    requires FirstMatch(table, pgn) < |table|
    ensures var after := table[FirstMatch(table, pgn) := table[FirstMatch(table, pgn)].(active := false)];
      |Matching(after, pgn)| == |Matching(table, pgn)| - 1 &&
      (Matching(after, pgn) == [] <==> |Matching(table, pgn)| == 1)
  {
    MatchingAfterOff(table, pgn);
  }
}
