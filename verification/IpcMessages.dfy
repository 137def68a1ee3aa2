/**
 The Control IPC v1 messages.  A line of the wire is either undecodable or one
 envelope: encoding to JSON and back is taken as exact.
 */
module IpcMessages {
  import opened Wrappers

  const PROTOCOL_VERSION := 1
  const ID_SIZE := 0x1_0000_0000_0000_0000

  datatype Request =
    | SwitchWorkspace(idx: nat)
    | MoveFocused(target: nat)
    | ReloadConfig
    | GetState
    | SpawnLauncher
    | SessionLock
    | Quit

  datatype StateSnapshot =
    StateSnapshot(workspaceCount: nat, activeWorkspace: nat, occupied: seq<nat>, xwaylandReady: bool)

  datatype IpcError =
    | VersionMismatch(supported: seq<nat>)
    | Undecodable
    | ResponseOnRequestSocket
    | WorkspaceOutOfRange(idx: nat)
    | NoFocusedWindow
    | NotListening
    | ReplyDropped

  datatype Response = Ok(data: Option<StateSnapshot>) | Err(error: IpcError)

  datatype Direction = Req(req: Request) | Resp(resp: Response)
  datatype Envelope = Envelope(v: nat, id: nat, direction: Direction)
  datatype Line = Garbage | Json(env: Envelope)

  // The id a response echoes: zero when the request line does not decode.
  function EchoId(line: Line): nat {
    match line case Garbage => 0 case Json(env) => env.id
  }
}
