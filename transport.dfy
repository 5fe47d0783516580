/**
 * The WebSocket side of the bridge (main.go:349-486): the slot holding the
 * active extension connection, the registry that maps request IDs to waiting
 * dispatchers, the read loop of handleWebSocketConnections and the dispatcher
 * sendRequestToExtension.
 *
 * The goroutines are modelled as a sequence of steps. A connection is known
 * only by its identity. A waiter is the buffered channel of capacity one that
 * the dispatcher makes. The frames the read loop reads while a dispatcher
 * waits are an input to the dispatcher. The 30-second timeout fires when none
 * of those frames reaches the waiter.
 */
module Transport {
  import opened Messages
  import Token

  /** Identity of a `*websocket.Conn`; the source compares connections by pointer. */
  type ConnId = nat

  /** A `chan json.RawMessage` of capacity one: empty, or holding one message. */
  datatype Waiter = Waiter(buffer: Option<Raw>)

  /** `responseChannels`. */
  type Registry = map<string, Waiter>

  const HeartbeatMethod := "heartbeat"
  const NoConnection := "no active Chrome extension connection"
  const TimeoutMessage := "timeout waiting for Chrome extension response"

  /** The acknowledgement written for every heartbeat (main.go:409-415); it carries no ID. */
  const HeartbeatAck := JsonRpcResponse("2.0", "", "{\"type\":\"heartbeat_response\"}", None)

  /**
   * One message read from the connection: it failed to decode, or it decoded
   * to `request`. `raw` is the whole message as read, which is what a waiter
   * receives.
   */
  datatype Frame = Malformed | Inbound(request: JsonRpcRequest, raw: Raw)

  /** What the read loop did with one frame. */
  datatype Effect =
    | Skipped               // undecodable; the loop continues
    | Acknowledged          // heartbeat; an acknowledgement was written
    | Delivered(token: string)  // put into the buffer of the waiter for `token`
    | Blocked(token: string)    // the waiter's buffer is full: the send parks the loop
    | Dropped               // no ID, or no waiter for it

  datatype Stepped = Stepped(registry: Registry, ack: Option<JsonRpcResponse>, effect: Effect)

  /** One iteration of the read loop (main.go:400-431). */
  function Step(registry: Registry, frame: Frame): Stepped
  {
    match frame
    case Malformed => Stepped(registry, None, Skipped)
    case Inbound(request, raw) =>
      if request.methodName == HeartbeatMethod then
        Stepped(registry, Some(HeartbeatAck), Acknowledged)
      else if request.id != "" && request.id in registry then
        if registry[request.id].buffer.None? then
          Stepped(registry[request.id := Waiter(Some(raw))], None, Delivered(request.id))
        else
          Stepped(registry, None, Blocked(request.id))
      else
        Stepped(registry, None, Dropped)
  }

  function AckOf(ack: Option<JsonRpcResponse>): seq<JsonRpcResponse>
  {
    if ack.Some? then [ack.value] else []
  }

  predicate IsHeartbeat(frame: Frame)
  {
    frame.Inbound? && frame.request.methodName == HeartbeatMethod
  }

  /** One acknowledgement per heartbeat frame, and nothing else: an independent account of what the loop writes. */
  function HeartbeatAcks(frames: seq<Frame>): seq<JsonRpcResponse>
  {
    if frames == [] then []
    else (if IsHeartbeat(frames[0]) then [HeartbeatAck] else []) + HeartbeatAcks(frames[1..])
  }

  /** The loop's result: registry afterwards, acknowledgements written, frames handled. */
  datatype Served = Served(registry: Registry, acks: seq<JsonRpcResponse>, handled: nat)

  /** The read loop over the frames read before the read error that ends it; it stops early if a send parks it. */
  function Run(registry: Registry, frames: seq<Frame>): Served
    decreases |frames|
  {
    if frames == [] then Served(registry, [], 0)
    else
      var s := Step(registry, frames[0]);
      if s.effect.Blocked? then Served(registry, [], 0)
      else
        var rest := Run(s.registry, frames[1..]);
        Served(rest.registry, AckOf(s.ack) + rest.acks, rest.handled + 1)
  }

  /** What the dispatcher's wait sees: the registry when it wakes, the loop's acknowledgements meanwhile, and the reply if one came. */
  datatype Awaited = Awaited(registry: Registry, acks: seq<JsonRpcResponse>, reply: Option<Raw>)

  /**
   * The `select` of main.go:480-485 while the read loop handles `frames`: the
   * dispatcher wakes as soon as its buffer holds a message. If the frames run
   * out first, or the loop parks on another waiter, the timeout fires.
   */
  function Await(registry: Registry, token: string, frames: seq<Frame>): Awaited
    decreases |frames|
  {
    if token in registry && registry[token].buffer.Some? then Awaited(registry, [], registry[token].buffer)
    else if frames == [] then Awaited(registry, [], None)
    else
      var s := Step(registry, frames[0]);
      if s.effect.Blocked? then Awaited(registry, [], None)
      else
        var rest := Await(s.registry, token, frames[1..]);
        Awaited(rest.registry, AckOf(s.ack) + rest.acks, rest.reply)
  }

  /** The first frame a fresh waiter for `token` is handed: not a heartbeat, and carrying that ID. */
  function FirstReply(token: string, frames: seq<Frame>): Option<Raw>
  {
    if frames == [] then None
    else if frames[0].Inbound? && !IsHeartbeat(frames[0]) && frames[0].request.id == token then Some(frames[0].raw)
    else FirstReply(token, frames[1..])
  }

  /** How the transport behaves once the request is registered. */
  datatype Outcome =
    | MarshalFails(detail: string)  // json.Marshal of the request fails
    | WriteFails(detail: string)    // conn.WriteMessage fails
    | Waits(frames: seq<Frame>)     // written; these frames are read during the wait

  /**
   * A dispatch: its result, the registry afterwards, the request written (if
   * a write was attempted) and the heartbeat acknowledgements written during
   * the wait.
   */
  datatype Dispatched = Dispatched(
    result: Result<Raw>,
    registry: Registry,
    sent: Option<JsonRpcRequest>,
    acks: seq<JsonRpcResponse>)

  /** sendRequestToExtension (main.go:436-486), with the clock, the random draw and the transport as inputs. */
  function Dispatch(active: Option<ConnId>, registry: Registry, name: string, params: Raw,
                    unixSeconds: int, suffix: Token.Suffix, outcome: Outcome): Dispatched
  {
    if active.None? then Dispatched(Err(NoConnection), registry, None, [])
    else
      var token := Token.Make(name, unixSeconds, suffix);
      var registered := registry[token := Waiter(None)];
      var request := JsonRpcRequest("2.0", token, name, params);
      match outcome
      case MarshalFails(detail) =>
        Dispatched(Err("error marshalling request: " + detail), registered - {token}, None, [])
      case WriteFails(detail) =>
        Dispatched(Err("error sending request: " + detail), registered - {token}, Some(request), [])
      case Waits(frames) =>
        var w := Await(registered, token, frames);
        var result := if w.reply.Some? then Ok(w.reply.value) else Err(TimeoutMessage);
        Dispatched(result, w.registry - {token}, Some(request), w.acks)
  }

  // ---------------------------------------------------------------------------
  // The active-connection slot

  /** What the WebSocket handler does to the slot: take it on accept, release it on exit. */
  datatype SlotChange = Connect(conn: ConnId) | Disconnect(conn: ConnId)

  /** One change to the slot (main.go:376-378 and 383-390). */
  function Change(active: Option<ConnId>, change: SlotChange): Option<ConnId>
  {
    match change
    case Connect(conn) => Some(conn)
    case Disconnect(conn) => if active == Some(conn) then None else active
  }

  /** The slot after `changes`, applied in order. */
  function Apply(active: Option<ConnId>, changes: seq<SlotChange>): Option<ConnId>
    decreases |changes|
  {
    if changes == [] then active else Change(Apply(active, changes[..|changes| - 1]), changes[|changes| - 1])
  }

  /**
   * The slot only ever holds the connection it started with or one that was
   * accepted: an exit never puts a connection back. A connection accepted last
   * is the one held.
   */
  lemma {:induction false} ApplyOrigin(active: Option<ConnId>, changes: seq<SlotChange>)
    ensures var slot := Apply(active, changes);
      slot.Some? ==> slot == active || exists k | 0 <= k < |changes| :: changes[k] == Connect(slot.value)
    ensures |changes| > 0 && changes[|changes| - 1].Connect? ==>
      Apply(active, changes) == Some(changes[|changes| - 1].conn)
    decreases |changes|
  {
    if changes != [] {
      var init := changes[..|changes| - 1];
      ApplyOrigin(active, init);
      var before, slot := Apply(active, init), Apply(active, changes);
      if slot.Some? && slot != active && changes[|changes| - 1] != Connect(slot.value) {
        assert slot == before;
        var k :| 0 <= k < |init| && init[k] == Connect(slot.value);
        assert changes[k] == init[k];
      }
    }
  }

  // ---------------------------------------------------------------------------
  // Properties of the read loop

  /** A malformed frame changes nothing and writes nothing. */
  lemma StepMalformed(registry: Registry)
    ensures Step(registry, Malformed) == Stepped(registry, None, Skipped)
  {
  }

  /** A heartbeat is answered with the fixed acknowledgement and never consults or changes the registry, whatever its ID. */
  lemma StepHeartbeat(registry: Registry, frame: Frame)
    requires IsHeartbeat(frame)
    ensures Step(registry, frame) == Stepped(registry, Some(HeartbeatAck), Acknowledged)
  {
  }

  /**
   * A frame is handed to a waiter exactly when it is not a heartbeat, its ID
   * is non-empty and registered, and that waiter's buffer is free. Only that
   * waiter's buffer changes, and no entry is removed.
   */
  lemma StepDelivers(registry: Registry, frame: Frame, token: string)
    ensures Step(registry, frame).effect == Delivered(token) <==>
      (frame.Inbound? && !IsHeartbeat(frame) && token != "" && frame.request.id == token
       && token in registry && registry[token].buffer.None?)
    ensures Step(registry, frame).effect == Delivered(token) ==>
      Step(registry, frame).registry == registry[token := Waiter(Some(frame.raw))]
  {
  }

  /** A non-heartbeat frame with an empty or unknown ID is dropped without any effect. */
  lemma StepDrops(registry: Registry, frame: Frame)
    requires frame.Inbound? && !IsHeartbeat(frame)
    requires frame.request.id == "" || frame.request.id !in registry
    ensures Step(registry, frame) == Stepped(registry, None, Dropped)
  {
  }

  /** No frame adds or removes a registry entry: delivery does not delete. */
  lemma StepKeepsKeys(registry: Registry, frame: Frame)
    ensures Step(registry, frame).registry.Keys == registry.Keys
  {
  }

  /** The loop never adds or removes registry entries, and only heartbeat acknowledgements are written. */
  lemma {:induction false} RunKeepsKeys(registry: Registry, frames: seq<Frame>)
    ensures Run(registry, frames).registry.Keys == registry.Keys
    ensures Run(registry, frames).handled <= |frames|
    ensures Run(registry, frames).acks == HeartbeatAcks(frames[..Run(registry, frames).handled])
    decreases |frames|
  {
    if frames != [] {
      var s := Step(registry, frames[0]);
      if !s.effect.Blocked? {
        RunKeepsKeys(s.registry, frames[1..]);
        var n := Run(s.registry, frames[1..]).handled;
        assert frames[..n + 1][1..] == frames[1..][..n];
      }
    }
  }

  /**
   * With no request in flight, the loop handles every frame: malformed ones
   * are skipped and the loop goes on, each heartbeat is acknowledged, and the
   * registry stays empty.
   */
  lemma {:induction false} RunIdle(frames: seq<Frame>)
    ensures Run(map[], frames) == Served(map[], HeartbeatAcks(frames), |frames|)
    decreases |frames|
  {
    if frames != [] {
      RunIdle(frames[1..]);
    }
  }

  /** One step of the read loop at position `i`: how a loop that has written `acks` so far reaches `total`. */
  lemma RunAt(registry: Registry, frames: seq<Frame>, i: nat, acks: seq<JsonRpcResponse>, total: Served)
    requires i < |frames|
    requires var rest := Run(registry, frames[i..]); total == Served(rest.registry, acks + rest.acks, i + rest.handled)
    ensures var s := Step(registry, frames[i]);
      if s.effect.Blocked? then Run(registry, frames[i..]) == Served(registry, [], 0)
      else var rest := Run(s.registry, frames[i + 1..]);
        total == Served(rest.registry, (acks + AckOf(s.ack)) + rest.acks, (i + 1) + rest.handled)
  {
    assert frames[i..][0] == frames[i] && frames[i..][1..] == frames[i + 1..];
  }

  /** One step of the wait at position `i`, while the waiter's buffer is empty. */
  lemma AwaitAt(registry: Registry, token: string, frames: seq<Frame>, i: nat, acks: seq<JsonRpcResponse>, total: Awaited)
    requires i < |frames| && token in registry && registry[token].buffer.None?
    requires var rest := Await(registry, token, frames[i..]); total == Awaited(rest.registry, acks + rest.acks, rest.reply)
    ensures var s := Step(registry, frames[i]);
      if s.effect.Blocked? then Await(registry, token, frames[i..]) == Awaited(registry, [], None)
      else var rest := Await(s.registry, token, frames[i + 1..]);
        total == Awaited(rest.registry, (acks + AckOf(s.ack)) + rest.acks, rest.reply)
  {
    assert frames[i..][0] == frames[i] && frames[i..][1..] == frames[i + 1..];
  }

  // ---------------------------------------------------------------------------
  // Properties of the dispatcher

  lemma {:induction false} AwaitKeepsKeys(registry: Registry, token: string, frames: seq<Frame>)
    ensures Await(registry, token, frames).registry.Keys == registry.Keys
    ensures forall k | 0 <= k < |Await(registry, token, frames).acks| :: Await(registry, token, frames).acks[k] == HeartbeatAck
    decreases |frames|
  {
    if !(token in registry && registry[token].buffer.Some?) && frames != [] {
      var s := Step(registry, frames[0]);
      if !s.effect.Blocked? {
        AwaitKeepsKeys(s.registry, token, frames[1..]);
      }
    }
  }

  /** A fresh waiter that is alone in the registry receives exactly the first frame addressed to it. */
  lemma {:induction false} AwaitAlone(token: string, frames: seq<Frame>)
    requires token != ""
    ensures Await(map[token := Waiter(None)], token, frames).reply == FirstReply(token, frames)
    decreases |frames|
  {
    var registry := map[token := Waiter(None)];
    if frames != [] {
      var s := Step(registry, frames[0]);
      if s.effect.Delivered? {
        assert s.registry == map[token := Waiter(Some(frames[0].raw))];
      } else {
        assert s.registry == registry;
        AwaitAlone(token, frames[1..]);
      }
    }
  }

  /** The acknowledgements of a prefix one frame longer. */
  lemma HeartbeatAcksPrefix(frames: seq<Frame>, m: nat)
    requires m < |frames|
    ensures HeartbeatAcks(frames[..m + 1]) == AckOf(if IsHeartbeat(frames[0]) then Some(HeartbeatAck) else None) + HeartbeatAcks(frames[1..][..m])
  {
    assert frames[..m + 1][0] == frames[0] && frames[..m + 1][1..] == frames[1..][..m];
  }

  /**
   * While a fresh waiter alone in the registry waits, the loop acknowledges
   * exactly the heartbeats among the frames it handles before the wake-up.
   */
  lemma {:induction false} AwaitAloneAcks(token: string, frames: seq<Frame>)
    requires token != ""
    ensures exists n | 0 <= n <= |frames| :: Await(map[token := Waiter(None)], token, frames).acks == HeartbeatAcks(frames[..n])
    decreases |frames|
  {
    var registry := map[token := Waiter(None)];
    if frames == [] {
      assert Await(registry, token, frames).acks == HeartbeatAcks(frames[..0]);
    } else {
      var s := Step(registry, frames[0]);
      if s.effect.Delivered? {
        assert Await(s.registry, token, frames[1..]).acks == [];
        assert Await(registry, token, frames).acks == HeartbeatAcks(frames[..0]);
      } else {
        assert s.registry == registry && !s.effect.Blocked?;
        assert s.ack == (if IsHeartbeat(frames[0]) then Some(HeartbeatAck) else None);
        AwaitAloneAcks(token, frames[1..]);
        var m :| 0 <= m <= |frames[1..]| && Await(registry, token, frames[1..]).acks == HeartbeatAcks(frames[1..][..m]);
        HeartbeatAcksPrefix(frames, m);
        assert Await(registry, token, frames).acks == HeartbeatAcks(frames[..m + 1]);
      }
    }
  }

  /** With an empty slot the dispatcher fails at once, writes nothing and creates no entry. */
  lemma DispatchWithoutConnection(registry: Registry, name: string, params: Raw,
                                  unixSeconds: int, suffix: Token.Suffix, outcome: Outcome)
    ensures var d := Dispatch(None, registry, name, params, unixSeconds, suffix, outcome);
      d.result == Err(NoConnection) && d.registry == registry && d.sent.None? && d.acks == []
  {
  }

  /** A frame that is a reply carrying `token`: what the read loop hands to that token's waiter. */
  predicate RepliesTo(frame: Frame, token: string)
  {
    frame.Inbound? && !IsHeartbeat(frame) && frame.request.id == token
  }

  /**
   * With a connection, the request written carries the token built from the
   * method, the second and the draw. A marshal failure writes nothing. The
   * token is registered before the write: a reply that is the very first
   * frame read after the write reaches the dispatcher, whatever else is in
   * the registry.
   */
  lemma DispatchRegistersFirst(conn: ConnId, registry: Registry, name: string, params: Raw,
                               unixSeconds: int, suffix: Token.Suffix, outcome: Outcome)
    ensures var d := Dispatch(Some(conn), registry, name, params, unixSeconds, suffix, outcome);
      var token := Token.Make(name, unixSeconds, suffix);
      && (d.sent.Some? <==> !outcome.MarshalFails?)
      && (d.sent.Some? ==> d.sent.value == JsonRpcRequest("2.0", token, name, params))
      && (outcome.Waits? && |outcome.frames| > 0 && RepliesTo(outcome.frames[0], token) ==>
            d.result == Ok(outcome.frames[0].raw))
  {
    var token := Token.Make(name, unixSeconds, suffix);
    if outcome.Waits? && |outcome.frames| > 0 && RepliesTo(outcome.frames[0], token) {
      Token.MakeNonEmpty(name, unixSeconds, suffix);
      var registered := registry[token := Waiter(None)];
      var frames := outcome.frames;
      var s := Step(registered, frames[0]);
      assert s.registry == registered[token := Waiter(Some(frames[0].raw))];
      assert Await(s.registry, token, frames[1..]).reply == Some(frames[0].raw);
    }
  }

  /**
   * On every exit path the deferred delete removes the token, and every other
   * key stays. Other waiters may be handed frames during the wait, so only
   * their keys are kept, not their buffers. On a marshal or write failure the
   * registry is exactly the old one without the token: for a fresh token the
   * old registry itself, for a colliding one the old registry with the older
   * entry deleted, as the source does. An empty registry stays empty.
   */
  lemma DispatchLeavesNoEntry(active: Option<ConnId>, registry: Registry, name: string, params: Raw,
                              unixSeconds: int, suffix: Token.Suffix, outcome: Outcome)
    ensures var d := Dispatch(active, registry, name, params, unixSeconds, suffix, outcome);
      var token := Token.Make(name, unixSeconds, suffix);
      && (active.Some? ==> d.registry.Keys == registry.Keys - {token})
      && (active.Some? && !outcome.Waits? ==> d.registry == registry - {token})
      && (token !in registry ==> d.registry.Keys == registry.Keys)
      && (token !in registry && !outcome.Waits? ==> d.registry == registry)
      && (registry == map[] ==> d.registry == map[])
      && (forall k | 0 <= k < |d.acks| :: d.acks[k] == HeartbeatAck)
  {
    if active.Some? && outcome.Waits? {
      var token := Token.Make(name, unixSeconds, suffix);
      AwaitKeepsKeys(registry[token := Waiter(None)], token, outcome.frames);
    }
  }

  /**
   * With no other request in flight, the caller gets the first frame the read
   * loop sees that carries its token and is not a heartbeat; if there is none,
   * the timeout error. Failures of marshalling and writing come back with
   * their detail.
   */
  lemma DispatchResult(conn: ConnId, name: string, params: Raw, unixSeconds: int, suffix: Token.Suffix, outcome: Outcome)
    ensures var d := Dispatch(Some(conn), map[], name, params, unixSeconds, suffix, outcome);
      var token := Token.Make(name, unixSeconds, suffix);
      && (outcome.MarshalFails? ==> d.result == Err("error marshalling request: " + outcome.detail))
      && (outcome.WriteFails? ==> d.result == Err("error sending request: " + outcome.detail))
      && (outcome.Waits? ==>
            d.result == (match FirstReply(token, outcome.frames)
                         case Some(message) => Ok(message)
                         case None => Err(TimeoutMessage)))
      && (outcome.Waits? ==> exists n | 0 <= n <= |outcome.frames| :: d.acks == HeartbeatAcks(outcome.frames[..n]))
      && (!outcome.Waits? ==> d.acks == [])
  {
    var token := Token.Make(name, unixSeconds, suffix);
    if outcome.Waits? {
      Token.MakeNonEmpty(name, unixSeconds, suffix);
      assert map[][token := Waiter(None)] == map[token := Waiter(None)];
      AwaitAlone(token, outcome.frames);
      AwaitAloneAcks(token, outcome.frames);
    }
  }

  // ---------------------------------------------------------------------------
  // The shared state

  /** The two globals `activeConnection` and `responseChannels`. */
  class Bridge {
    var active: Option<ConnId>
    var registry: Registry

    /** No request is in flight: the state between two control requests. */
    ghost predicate Idle()
      reads this
    {
      registry == map[]
    }

    constructor ()
      ensures active == None && registry == map[]
    {
      active := None;
      registry := map[];
    }

    /** A new connection takes the slot; the one it replaces is not closed (main.go:376-378). */
    method Accept(conn: ConnId)
      modifies this
      ensures active == Some(conn)
      ensures registry == old(registry)
    {
      active := Some(conn);
    }

    /** The deferred cleanup of a connection: clear the slot only if it still holds `conn` (main.go:383-390). */
    method Close(conn: ConnId)
      modifies this
      ensures active == if old(active) == Some(conn) then None else old(active)
      ensures registry == old(registry)
    {
      if active == Some(conn) {
        active := None;
      }
    }

    /** The slot changes the WebSocket handler makes, one after the other, while the control side is not dispatching. */
    method Reconnect(changes: seq<SlotChange>)
      modifies this
      ensures active == Apply(old(active), changes)
      ensures registry == old(registry)
    {
      var i := 0;
      while i < |changes|
        invariant 0 <= i <= |changes|
        invariant active == Apply(old(active), changes[..i])
        invariant registry == old(registry)
      {
        assert changes[..i + 1][..i] == changes[..i];
        match changes[i] {
          case Connect(conn) => Accept(conn);
          case Disconnect(conn) => Close(conn);
        }
        i := i + 1;
      }
      assert changes[..i] == changes;
    }

    /** One frame of the read loop; returns the acknowledgement to write, if any. */
    method HandleFrame(frame: Frame) returns (ack: Option<JsonRpcResponse>, effect: Effect)
      modifies this
      ensures Step(old(registry), frame) == Stepped(registry, ack, effect)
      ensures active == old(active)
    {
      ack, effect := None, Dropped;
      match frame
      case Malformed =>
        effect := Skipped;
      case Inbound(request, raw) =>
        if request.methodName == HeartbeatMethod {
          ack, effect := Some(HeartbeatAck), Acknowledged;
        } else if request.id != "" {
          if request.id in registry {
            if registry[request.id].buffer.None? {
              registry := registry[request.id := Waiter(Some(raw))];
              effect := Delivered(request.id);
            } else {
              effect := Blocked(request.id);
            }
          }
        }
    }

    /**
     * The `for` loop of main.go:393-432 over the frames read before the read
     * error that ends it. It stops early when a send to a full waiter parks it.
     * Returns the acknowledgements written and the number of frames handled.
     */
    method ReadLoop(frames: seq<Frame>) returns (acks: seq<JsonRpcResponse>, handled: nat)
      modifies this
      ensures Run(old(registry), frames) == Served(registry, acks, handled)
      ensures active == old(active)
    {
      ghost var start := registry;
      acks := [];
      var i := 0;
      var parked := false;
      while i < |frames| && !parked
        invariant 0 <= i <= |frames|
        invariant active == old(active)
        invariant parked ==> Run(registry, frames[i..]) == Served(registry, [], 0)
        invariant var rest := Run(registry, frames[i..]);
          Run(start, frames) == Served(rest.registry, acks + rest.acks, i + rest.handled)
        decreases |frames| - i, !parked
      {
        ghost var step := Step(registry, frames[i]);
        RunAt(registry, frames, i, acks, Run(start, frames));
        var ack, effect := HandleFrame(frames[i]);
        assert registry == step.registry && ack == step.ack && effect == step.effect;
        if effect.Blocked? {
          parked := true;
        } else {
          acks := acks + AckOf(ack);
          i := i + 1;
        }
      }
      handled := i;
    }

    /**
     * handleWebSocketConnections after the upgrade: take the slot, run the
     * read loop, then run the deferred cleanup. If a send parks the loop, the
     * cleanup never runs and the slot keeps `conn`.
     */
    method ServeConnection(conn: ConnId, frames: seq<Frame>) returns (acks: seq<JsonRpcResponse>, parked: bool)
      modifies this
      ensures var run := Run(old(registry), frames);
        && registry == run.registry && acks == run.acks
        && parked == (run.handled < |frames|)
      ensures active == if parked then Some(conn) else None
    {
      Accept(conn);
      var handled;
      acks, handled := ReadLoop(frames);
      RunKeepsKeys(old(registry), frames);
      parked := handled < |frames|;
      if !parked {
        Close(conn);
      }
    }

    /**
     * The `select` of main.go:480-485 for the waiter registered under `token`,
     * while the read loop handles `frames`. Returns the message the waiter
     * took, if any, and the heartbeat acknowledgements written meanwhile.
     */
    method Wait(token: string, frames: seq<Frame>) returns (reply: Option<Raw>, acks: seq<JsonRpcResponse>)
      requires token in registry && registry[token].buffer.None?
      modifies this
      ensures Await(old(registry), token, frames) == Awaited(registry, acks, reply)
      ensures active == old(active)
    {
      ghost var start := registry;
      acks := [];
      var i := 0;
      var parked := false;
      while i < |frames| && !parked && registry[token].buffer.None?
        invariant 0 <= i <= |frames|
        invariant token in registry
        invariant active == old(active)
        invariant parked ==> registry[token].buffer.None? && Await(registry, token, frames[i..]) == Awaited(registry, [], None)
        invariant var rest := Await(registry, token, frames[i..]);
          Await(start, token, frames) == Awaited(rest.registry, acks + rest.acks, rest.reply)
        decreases |frames| - i, !parked
      {
        ghost var step := Step(registry, frames[i]);
        AwaitAt(registry, token, frames, i, acks, Await(start, token, frames));
        var ack, effect := HandleFrame(frames[i]);
        assert registry == step.registry && ack == step.ack && effect == step.effect;
        if effect.Blocked? {
          parked := true;
        } else {
          acks := acks + AckOf(ack);
          i := i + 1;
        }
      }
      reply := registry[token].buffer;
    }

    /**
     * sendRequestToExtension. The request is registered before it is
     * written, and the deferred delete runs on every exit. While it waits, the
     * read loop of the connection handles `outcome.frames`.
     */
    method Invoke(name: string, params: Raw, unixSeconds: int, suffix: Token.Suffix, outcome: Outcome)
      returns (result: Result<Raw>, sent: Option<JsonRpcRequest>, acks: seq<JsonRpcResponse>)
      modifies this
      ensures var d := Dispatch(old(active), old(registry), name, params, unixSeconds, suffix, outcome);
        result == d.result && sent == d.sent && acks == d.acks && registry == d.registry
      ensures active == old(active)
      ensures old(Idle()) ==> Idle()
    {
      DispatchLeavesNoEntry(active, registry, name, params, unixSeconds, suffix, outcome);
      if active.None? {
        return Err(NoConnection), None, [];
      }
      var token := Token.Make(name, unixSeconds, suffix);
      registry := registry[token := Waiter(None)];
      ghost var registered := registry;
      var request := JsonRpcRequest("2.0", token, name, params);
      match outcome
      case MarshalFails(detail) =>
        registry := registry - {token};
        result, sent, acks := Err("error marshalling request: " + detail), None, [];
      case WriteFails(detail) =>
        registry := registry - {token};
        result, sent, acks := Err("error sending request: " + detail), Some(request), [];
      case Waits(frames) =>
        var reply;
        reply, acks := Wait(token, frames);
        sent := Some(request);
        result := if reply.Some? then Ok(reply.value) else Err(TimeoutMessage);
        registry := registry - {token};
    }
  }

  /** An older connection's exit leaves a newer connection in the slot (main.go:376-390). */
  method OverlappingConnections(bridge: Bridge, older: ConnId, newer: ConnId)
    requires older != newer
    modifies bridge
    ensures bridge.active == Some(newer)
    ensures bridge.registry == old(bridge.registry)
  {
    bridge.Accept(older);
    bridge.Accept(newer);
    bridge.Close(older);
  }
}
