/**
 * The envelopes the bridge exchanges: JSON-RPC frames on the extension's
 * WebSocket and MCP envelopes on standard input/output (main.go:280-347).
 * Every `json.RawMessage` is kept as text. `encoding/json` itself is not
 * modelled: its decoders are supplied as a `Codec` of total functions.
 */
module Messages {

  /** A `json.RawMessage`, held as the text it contains. */
  type Raw = string

  datatype Option<+T> = None | Some(value: T)

  /** A Go `(value, error)` pair. The error is kept by its `Error()` text. */
  datatype Result<+T> = Ok(value: T) | Err(message: string)

  /** What `json.Unmarshal` gives back: a value, or an error with its text. */
  datatype Decoded<+T> = Parsed(value: T) | Invalid(detail: string)

  /** JSONRPCRequest: a frame in either direction on the WebSocket. */
  datatype JsonRpcRequest = JsonRpcRequest(jsonrpc: string, id: string, methodName: string, params: Raw)

  /** JSONRPCError. */
  datatype JsonRpcError = JsonRpcError(code: int, message: string)

  /** JSONRPCResponse. A `nil` Result is the empty text; `Error` is a pointer, so it is optional. */
  datatype JsonRpcResponse = JsonRpcResponse(jsonrpc: string, id: string, result: Raw, error: Option<JsonRpcError>)

  /** MCPRequest: one line read from standard input. */
  datatype McpRequest = McpRequest(schema: string, id: string, params: Raw)

  /** CallToolParams. `arguments` is `None` when the decoded RawMessage is nil. */
  datatype CallToolParams = CallToolParams(name: string, arguments: Option<Raw>)

  /** ContentItem. `kind` is the JSON field "type". */
  datatype ContentItem = ContentItem(kind: string, text: string)

  /** Tool, without its input schema. */
  datatype Tool = Tool(name: string, description: string)

  /** The three decodings the control side performs with `json.Unmarshal`. */
  datatype Codec = Codec(
    decodeRequest: string -> Decoded<McpRequest>,
    decodeCallParams: Raw -> Decoded<CallToolParams>,
    decodeReply: Raw -> Decoded<JsonRpcResponse>)

  /** The static catalog returned by AllTools, in its order. */
  const AllTools: seq<Tool> := [
    Tool("chrome_get_active_tab", "Get information about the currently active tab"),
    Tool("chrome_get_all_tabs", "Get information about all open tabs"),
    Tool("chrome_execute_script", "Execute DOM operations in the context of a web page"),
    Tool("chrome_inject_css", "Inject CSS into a web page"),
    Tool("chrome_get_extension_info", "Get information about installed extensions"),
    Tool("chrome_send_message", "Send a message to an extension's background script"),
    Tool("chrome_get_cookies", "Get cookies for a specific domain"),
    Tool("chrome_capture_screenshot", "Take a screenshot of the current tab"),
    Tool("chrome_create_tab", "Create a new tab with specified URL and options")
  ]
}
