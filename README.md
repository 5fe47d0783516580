# Chrome extension MCP bridge: connection and correlation model

This project models, in Dafny, the core of a Go program (`main.go`) that
bridges two channels:
- MCP envelopes read line by line from standard input;
- one WebSocket connection held by a Chrome extension.

The model covers three parts of that program:

- **The active-connection slot.** Accepting a connection overwrites the slot
  and does not close the connection it replaces. When a connection's read loop
  exits, the slot is cleared only if it still holds that connection.
- **The correlation registry and the dispatcher.** `sendRequestToExtension`:
  1. checks the slot;
  2. builds the request ID `method_seconds_random`;
  3. registers a capacity-one channel under that ID;
  4. writes the request;
  5. waits for a reply or for the 30-second timeout.

  A deferred delete removes the ID on every exit path. The read loop handles
  each frame in turn:
  - it skips frames that do not decode;
  - it answers heartbeats at once, without looking at the registry;
  - it hands any other frame whose ID is registered to that waiter;
  - it drops the rest.

  Handing a frame to a waiter does not remove the registry entry.
- **The control side.** Requests are routed on their schema tag. The checks
  of `handleCallTool` and the mapping of the dispatcher's outcome produce a
  response envelope that always echoes the request's ID.

Files:
- `messages.dfy` (module `Messages`): the Go structs.
- `token.dfy` (module `Token`): the request ID. The ID is split back into its
  parts, so two requests collide exactly when their method, second and random
  draw are all equal.
- `transport.dfy` (module `Transport`): the read-loop step, the read loop, the
  wait and the dispatcher as functions. The class `Bridge` holds the two
  globals, `active` and `registry`. `Accept` and `Close` state the new slot
  directly. `Reconnect` is proved against the slot function `Apply`, and
  `HandleFrame`, `ReadLoop`, `ServeConnection`, `Wait` and `Invoke` against
  the functions above.
- `control.dfy` (module `Control`): routing and outcome mapping as functions.
  The handlers `HandleCallTool`, `Respond` and the stdin loop
  `HandleMcpRequests` are methods on the bridge.

Inputs the model takes as parameters:
- **The JSON library.** `encoding/json` decoding comes in as a `Codec` of
  total functions. A frame read from the WebSocket comes in already decoded.
- **Time and randomness.** The Unix second and the `rand.Intn(1000000)` draw
  are inputs to each dispatch.
- **The WebSocket handler's slot changes.** Each stdin line comes with the
  accepts and exits the handler performed since the previous line. They are
  applied with `Accept` and `Close` before the line is read, so each request
  sees the slot as it is at that moment.
- **The transport.** Each dispatch takes an `Outcome`:
  - `MarshalFails`: the request cannot be marshalled;
  - `WriteFails`: writing the request fails;
  - `Waits(frames)`: the request is written, and `frames` is what the read
    loop receives during the 30-second window, up to the wake-up. The
    dispatcher wakes on the first frame that fills its channel, and the frames
    after it play no part in the wait. If none does, the timeout error is
    returned. Frames read after the wake-up, or between stdin lines, belong to
    `ReadLoop` and `ServeConnection`, not to the stdin session.

Goroutines become a sequence of atomic steps.

The model keeps these behaviours of the source as written:

- Accepting a connection does not close the connection it replaces.
- A reply does not remove its registry entry. Only the dispatcher's deferred
  delete does.
- Registering an ID that is already present overwrites the older waiter. The
  deferred delete then removes the entry altogether. After the dispatch, the
  registry has the old registry's keys minus that ID. On a marshal or write
  failure it is exactly the old registry minus that ID. During a wait, other
  waiters may be handed frames, so their buffers can change.
- The heartbeat acknowledgement literal in the source sets a `Method` field,
  but `JSONRPCResponse` declares no such field. The model's acknowledgement
  has `jsonrpc` "2.0", no ID, the result `{"type":"heartbeat_response"}` and no
  error.

## Model

| member | source | states |
|---|---|---|
| `Token.SplitMake` | main.go:446 | the request ID `method_seconds_random` splits back into the method, the Unix second and the random draw it was built from |
| `Token.MakeInjective` | main.go:446 | two request IDs are equal if and only if method, second and draw are all equal |
| `Token.DecimalInverse` | main.go:446 | Go's `%d` rendering of an integer, negative ones included, reads back to that integer and contains no `_` |
| `Token.MakeNonEmpty` | main.go:446 | a request ID is never empty, so the read loop's non-empty-ID test lets replies carrying it through |
| `Transport.StepMalformed` | main.go:401-405 | a frame that fails to decode is skipped, with no write and no registry change |
| `Transport.StepHeartbeat` | main.go:408-417 | a `heartbeat` frame always yields the fixed acknowledgement, and the registry is neither consulted nor changed, whatever the frame's ID |
| `Transport.StepDelivers` | main.go:422-431 | a frame is handed to the waiter for a token if and only if it is not a heartbeat, its ID is that non-empty registered token and that waiter's buffer is free; only that waiter's buffer changes |
| `Transport.StepDrops` | main.go:423-431 | a non-heartbeat frame with an empty or unregistered ID causes no delivery, no write and no state change |
| `Transport.StepKeepsKeys` | main.go:422-431 | no frame adds or removes a registry entry; delivery does not delete |
| `Transport.RunKeepsKeys` | main.go:393-432 | the read loop never adds or removes registry entries, and the only writes it makes are one acknowledgement per heartbeat it handled |
| `Transport.RunIdle` | main.go:393-432 | with no request in flight the loop handles every frame: malformed frames do not stop it, every heartbeat, including one after a malformed frame, is acknowledged, and the registry stays empty |
| `Transport.AwaitKeepsKeys` | main.go:479-485 | the wait neither adds nor removes registry entries, and only heartbeat acknowledgements are written meanwhile |
| `Transport.AwaitAlone` | main.go:423-485 | a fresh waiter alone in the registry receives exactly the first non-heartbeat frame carrying its ID, or nothing if there is none |
| `Transport.AwaitAloneAcks` | main.go:408-485 | while a fresh waiter alone in the registry waits, the loop writes exactly one acknowledgement per heartbeat of a prefix of the frames, the ones it handled before the wake-up |
| `Transport.DispatchWithoutConnection` | main.go:437-443 | with an empty slot the dispatcher returns "no active Chrome extension connection" at once, writes nothing and leaves the registry unchanged |
| `Transport.DispatchRegistersFirst` | main.go:445-485 | the written request carries `jsonrpc` "2.0", the built ID, the method and the params; only a marshal failure writes nothing; the ID is registered before the write, so a reply carrying it that is the very first frame read is returned as the result, whatever else is in the registry |
| `Transport.DispatchLeavesNoEntry` | main.go:449-459 | on every exit path the ID is deleted and every other key stays: the keys are the old keys minus the ID, the same keys as before when the ID was fresh; on marshal and write failures the registry is exactly the old one minus the ID, the old one itself when the ID was fresh; an empty registry stays empty; the only writes during the wait are heartbeat acknowledgements |
| `Transport.DispatchResult` | main.go:469-485 | marshal and write failures return their messages; otherwise the caller gets the first non-heartbeat frame carrying its ID, or the timeout error when none arrives; the acknowledgements written meanwhile are those of the heartbeats read before the wake-up, and none on a failure |
| `Transport.ApplyOrigin` | main.go:376-390 | after any sequence of accepts and exits the slot holds nothing, the connection it held before, or one that was accepted; a connection accepted last is the one held |
| `Transport.Bridge.Reconnect` | main.go:376-390 | a sequence of accepts and exits leaves the slot as the slot function says, by `Accept` and `Close` one at a time, and the registry untouched |
| `Transport.Bridge.constructor` | main.go:350-354 | the program starts with an empty slot and an empty registry |
| `Transport.Bridge.Accept` | main.go:376-378 | accepting a connection makes it the active one and touches nothing else |
| `Transport.Bridge.Close` | main.go:383-390 | on exit the slot is cleared only if it still holds this connection; a newer connection stays active |
| `Transport.Bridge.HandleFrame` | main.go:400-431 | one read-loop iteration changes the registry and writes exactly as the frame step does; the slot is untouched |
| `Transport.Bridge.ReadLoop` | main.go:393-432 | the read loop leaves the registry, the acknowledgements and the count of handled frames exactly as the loop function says; the slot is untouched |
| `Transport.Bridge.Wait` | main.go:479-485 | the dispatcher's wait, with the read loop handling frames meanwhile, returns the reply and acknowledgements the wait function says |
| `Transport.Bridge.ServeConnection` | main.go:367-433 | take the slot, run the read loop over the frames read before the read error, then clear the slot; a loop parked on a full waiter never reaches the cleanup |
| `Transport.Bridge.Invoke` | main.go:436-486 | the dispatcher's result, write and new registry are those of the dispatch function; the slot is untouched and an idle bridge is idle again afterwards |
| `Transport.OverlappingConnections` | main.go:376-390 | when an older connection exits after a newer one was accepted, the newer one stays active |
| `Control.AnswerRoutes` | main.go:580-589 | `mcp:request/list-tools@v1` gets `mcp:response/list-tools@v1` with the whole catalog, `mcp:request/call-tool@v1` is answered exactly as handleCallTool answers it, with a call-tool or error envelope, any other tag gets `mcp:error@v1` "Unknown schema: <tag>"; every response echoes the request ID; only call-tool can reach the transport |
| `Control.CallToolRejects` | main.go:503-511 | undecodable params give "Invalid call tool parameters: <detail>" and missing arguments give "No arguments provided", and in both cases the dispatcher is never called |
| `Control.CallToolOutcomeCases` | main.go:514-547 | the response is `mcp:response/call-tool@v1` if and only if the dispatcher returned a reply that decodes without an `error`, and then holds exactly one `text` item with the raw result; otherwise it is `mcp:error@v1` with the dispatcher's message, the decode error or the remote message; the ID is echoed |
| `Control.CallToolWithoutConnection` | main.go:513-517 | a call-tool request with arguments and no connection is answered with the no-connection error and writes nothing |
| `Control.ServeEchoesIds` | main.go:566-592 | empty and undecodable lines print nothing; every other line prints exactly one response, in order, echoing its ID |
| `Control.ServeStaysIdle` | main.go:566-592 | starting from an empty registry, the stdin loop leaves no registry entry behind after any line |
| `Control.ConnectBetweenRequests` | main.go:376-592 | a call-tool request read while no extension is connected gets the no-connection error; after the extension connects, the next call-tool request is written to it with the built ID; the registry ends empty |
| `Control.HandleCallTool` | main.go:502-548 | handleCallTool against the bridge answers, writes, acknowledges heartbeats and updates the registry as the call-tool function says |
| `Control.Respond` | main.go:580-591 | the schema switch against the bridge answers as the routing function says |
| `Control.HandleMcpRequests` | main.go:566-597 | the stdin loop, with the slot changes between lines applied, prints the responses of the session function and leaves the slot, registry, writes and acknowledgements it says; it echoes the ID of each handled line and keeps an idle bridge idle |

## Left out

- The WebSocket upgrade, the HTTP server and port, and `conn.Close`: these are I/O (main.go:358-373, 599-621).
- `ReadMessage`/`WriteMessage`: writes become returned values and reads become input frames.
- The stdin scanner: its line-length limit and the logging of `scanner.Err()` are I/O.
- Logging by `log.Printf`, and printing by `fmt.Println`: the printed responses are returned as values.
- Goroutines and `sync.Mutex` (main.go:352-354): every locked section is one atomic step.
  - Only one dispatch is in flight at a time, because the stdin loop is sequential.
  - Other waiters appear in the model only as the registry a dispatch starts from.
- Connection changes during a wait: `Accept` and `Close` happen between stdin lines, not among the frames of a wait. The source does not fail waiters when the connection changes, so such a request ends by its timeout unless a read loop still running, the replaced connection's or the new one's, delivers a reply carrying its ID.
- The blocking send on a full channel (main.go:428-429): it is reported as `Blocked`, and the model's loop stops there for good. In the source the loop could resume if the waiter later drained its buffer. This is unreachable in the model, because a wait ends at the first delivery. In the source two frames carrying the same ID can both be read before the dispatcher's `select` receives (main.go:480-481); the second send then parks the loop, for good if the `select` has chosen the timeout.
- Real time and `math/rand` (main.go:446, 483, 601-604): these are parameters. The 30-second length of the wait is represented only by which frames arrive within it.
- The `encoding/json` library:
  - decoding is the `Codec`;
  - errors from marshalling a response are ignored by the source, so responses are values;
  - the empty `_meta` map and the omitted `isError` of a call-tool result are not represented.
- The static tool catalog (main.go:35-278): names and descriptions are kept; the JSON input schemas are constant data.
- extension/popup.js is not part of this model: it is a user-interface script with no logic of the core.
- Transport.DispatchResult: stated for an otherwise empty registry, which is the only state the sequential stdin loop dispatches from. For other registries, `Transport.DispatchLeavesNoEntry` and the dispatch function still describe the result.
- Transport.AwaitAlone: stated for a fresh waiter that is alone in the registry, for the same reason.
- Transport.AwaitAloneAcks: stated for a fresh waiter alone in the registry, for the same reason; the prefix of handled frames is stated to exist, not computed.
