/** Frames of the agent tunnel and what the agent does with a runtime request. */
module Tunnel {
  import opened Common
  import opened Text

  /** The runtime calls; each has a request and a response payload. */
  datatype Call =
    | ListWorkspaces | WorkspaceTree | UpdateWorkspaceOrder | DeleteWorkspace | WorkspaceSessions | UpdateSessionOrder
    | CreateSession | RerunSession | GetSession | UpdateSession | DeleteSession | CloseSession | ReadHistory
    | ListShortcuts | CreateShortcut | UpdateShortcut | UpdateShortcutOrder | DeleteShortcut
    | FsStat | FsReadDirectory | FsReadFile | FsWriteFile | FsCreateDirectory | FsDelete | FsRename
    | ScmStatus | ScmOriginalContent | ScmExecute | ScmRepository

  datatype Payload =
    | Request(call: Call, body: string)
    | Response(call: Call, body: string)
    | ErrorResponse(code: string, error: string)
    | Stream(kind: StreamKind, data: string)
    | NoPayload

  /** Payloads of the connection itself, of terminals and of workspace watches. */
  datatype StreamKind =
    | Hello | HelloAck | Ping | Pong | Close
    | TerminalAttach | TerminalInput | TerminalOutput | TerminalResize | TerminalClosed
    | TerminalControl | TerminalTakeControl
    | FsWatchSubscribeReq | FsWatchSubscribed | FsChangeEvent

  datatype Frame = Frame(streamId: string, requestId: string, payload: Payload)

  // ---- the four lists ---------------------------------------------------------

  /** `isRuntimeRequest`: which requests the agent's read loop hands to a handler. */
  const ACCEPTED: set<Call> := {
    ListWorkspaces, WorkspaceTree, WorkspaceSessions, CreateSession, GetSession, RerunSession, UpdateSession,
    CloseSession, DeleteSession, ReadHistory, UpdateWorkspaceOrder, UpdateSessionOrder, DeleteWorkspace,
    ListShortcuts, CreateShortcut, UpdateShortcut, UpdateShortcutOrder, DeleteShortcut,
    FsStat, FsReadDirectory, FsReadFile, FsWriteFile, FsCreateDirectory, FsDelete, FsRename,
    ScmStatus, ScmOriginalContent, ScmExecute, ScmRepository}

  /** `HandleRuntimeRequest`: which requests reach the runtime. */
  const HANDLED: set<Call> := {
    ListWorkspaces, WorkspaceTree, UpdateWorkspaceOrder, DeleteWorkspace, WorkspaceSessions, UpdateSessionOrder,
    CreateSession, RerunSession, GetSession, UpdateSession, DeleteSession, CloseSession, ReadHistory,
    ListShortcuts, CreateShortcut, UpdateShortcut, UpdateShortcutOrder, DeleteShortcut,
    FsStat, FsReadDirectory, FsReadFile, FsWriteFile, FsCreateDirectory, FsDelete, FsRename,
    ScmStatus, ScmOriginalContent, ScmExecute, ScmRepository}

  /** `runtimeResponse`: which responses are put into a frame. */
  const FRAMED: set<Call> := {
    ListWorkspaces, WorkspaceTree, WorkspaceSessions, CreateSession, GetSession, RerunSession, UpdateSession,
    CloseSession, DeleteSession, ReadHistory, UpdateWorkspaceOrder, UpdateSessionOrder, DeleteWorkspace,
    ListShortcuts, CreateShortcut, UpdateShortcut, DeleteShortcut, UpdateShortcutOrder,
    FsStat, FsReadDirectory, FsReadFile, FsWriteFile, FsCreateDirectory, FsDelete, FsRename,
    ScmStatus, ScmOriginalContent, ScmExecute, ScmRepository}

  /** `isRuntimeResponse`: which responses the cloud gives to a waiting request. */
  const RECOGNISED: set<Call> := {
    ListWorkspaces, WorkspaceTree, WorkspaceSessions, CreateSession, GetSession, RerunSession, UpdateSession,
    CloseSession, DeleteSession, ReadHistory, UpdateWorkspaceOrder, UpdateSessionOrder, DeleteWorkspace,
    ListShortcuts, CreateShortcut, UpdateShortcut, UpdateShortcutOrder, DeleteShortcut,
    FsStat, FsReadDirectory, FsReadFile, FsWriteFile, FsCreateDirectory, FsDelete, FsRename,
    ScmStatus, ScmOriginalContent, ScmExecute, ScmRepository}

  predicate IsRuntimeRequest(frame: Frame) {
    frame.payload.Request? && frame.payload.call in ACCEPTED
  }

  predicate IsRuntimeResponse(frame: Frame) {
    frame.payload.ErrorResponse? || (frame.payload.Response? && frame.payload.call in RECOGNISED)
  }

  predicate Valid(frame: Frame) {
    frame.streamId != "" && !frame.payload.NoPayload?
  }

  // ---- the agent ----------------------------------------------------------------

  /** An error of the runtime; only typed ones bring a code and a message. */
  datatype RuntimeError = Typed(code: string, message: string) | Untyped
  datatype RuntimeResult = Done(body: string) | Raised(error: RuntimeError) | NoRuntime

  function RuntimeErrorFrame(streamId: string, requestId: string, error: RuntimeError): Frame {
    var code := if error.Typed? then TrimSpace(error.code) else "";
    var message := if error.Typed? then TrimSpace(error.message) else "";
    Frame(streamId, requestId, ErrorResponse(
      if code != "" then code else "runtime_error",
      if message != "" then message else "Runtime request failed."))
  }

  function RuntimeResponse(streamId: string, requestId: string, call: Call, body: string): Frame {
    Frame(streamId, requestId, if call in FRAMED then Response(call, body) else NoPayload)
  }

  /** What the agent writes back for a request, given what its runtime made of it. */
  function HandleRequest(frame: Frame, result: RuntimeResult): Frame {
    match result
    case NoRuntime =>
      Frame(frame.streamId, frame.requestId, ErrorResponse("runtime_unavailable", "runtime access unavailable"))
    case Raised(error) => RuntimeErrorFrame(frame.streamId, frame.requestId, error)
    case Done(body) =>
      if frame.payload.Request? && frame.payload.call in HANDLED
      then RuntimeResponse(frame.streamId, frame.requestId, frame.payload.call, body)
      else RuntimeErrorFrame(frame.streamId, frame.requestId, Untyped)
  }

  /** Whatever the error, the caller is told a code and a message, neither blank nor padded. */
  lemma ErrorsSaySomething(streamId: string, requestId: string, error: RuntimeError)
    ensures
      var payload := RuntimeErrorFrame(streamId, requestId, error).payload;
      payload.ErrorResponse? && Spoken(payload.code) && Spoken(payload.error)
  {
    hide TrimSpace;
    assert Spoken("runtime_error") && Spoken("Runtime request failed.");
    hide IsSpace;
  }

  predicate Spoken(text: string) {
    text != "" && !IsSpace(text[0]) && !IsSpace(text[|text| - 1])
  }

  /** The reply is for this request: same stream, same request id, and the same call or an error. */
  predicate Fits(request: Frame, reply: Frame) {
    && reply.streamId == request.streamId && reply.requestId == request.requestId
    && (reply.payload.ErrorResponse?
        || (request.payload.Request? && reply.payload.Response? && reply.payload.call == request.payload.call))
  }

  /** A text of the runtime without the blanks around it, or the default if there is nothing else. */
  predicate Says(raw: string, otherwise: string, text: string) {
    if Blank(raw) then text == otherwise else Stripped(raw, text)
  }

  /** The payload carries what the runtime made of the call: its very body, or what it says of its error. */
  predicate Carries(call: Call, result: RuntimeResult, payload: Payload) {
    match result
    case Done(body) => payload == Response(call, body)
    case NoRuntime => payload == ErrorResponse("runtime_unavailable", "runtime access unavailable")
    case Raised(Untyped) => payload == ErrorResponse("runtime_error", "Runtime request failed.")
    case Raised(Typed(code, message)) =>
      payload.ErrorResponse? && Says(code, "runtime_error", payload.code)
      && Says(message, "Runtime request failed.", payload.error)
  }

  /** The lists agree: every request the agent accepts is answered by a frame that can be sent,
      that fits the request, that carries what the runtime gave, and that the cloud gives to the
      waiting caller. */
  lemma EveryAcceptedRequestIsAnswered(frame: Frame, result: RuntimeResult)
    requires Valid(frame) && IsRuntimeRequest(frame)
    ensures
      var reply := HandleRequest(frame, result);
      Valid(reply) && Fits(frame, reply) && IsRuntimeResponse(reply)
      && Carries(frame.payload.call, result, reply.payload)
  {
    EveryCallIsListed(frame.payload.call);
    if result.Raised? && result.error.Typed? {
      TrimIsExact(result.error.code);
      TrimIsExact(result.error.message);
      hide TrimSpace, Stripped, Blank, ACCEPTED, HANDLED, FRAMED, RECOGNISED;
    }
  }

  lemma EveryCallIsListed(call: Call)
    ensures call in ACCEPTED && call in HANDLED && call in FRAMED && call in RECOGNISED
  {
  }
}
