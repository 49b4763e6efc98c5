/** Codes and sizes that the application library and the daemon share (dtn_errno.h, dtn_ipc.h). */
module IpcDefs {
  import opened Bytes

  // Status codes.
  const SUCCESS: nat := 0
  const EINVAL: nat := 129
  const EXDR: nat := 130
  const ECOMM: nat := 131
  const ETIMEOUT: nat := 133
  const ENOTFOUND: nat := 135
  const EINTERNAL: nat := 136
  const EINPOLL: nat := 137
  const EBUSY: nat := 138
  const EVERSION: nat := 139
  const EMSGTYPE: nat := 140

  // Message types.
  const OPEN: nat := 1
  const CLOSE: Byte := 2
  const LOCAL_EID: Byte := 3
  const SEND: Byte := 10
  const RECV: Byte := 11
  const BEGIN_POLL: Byte := 13
  const CANCEL_POLL: Byte := 14
  const SESSION_UPDATE: Byte := 16
  const PEEK: Byte := 18

  const IPC_VERSION: nat := 7

  /** Size of a message buffer. */
  const MAX_API_MSG: nat := 65536

  /** What of it the encoders and decoders may use; eight bytes are kept for framing. */
  const MAX_BODY: nat := MAX_API_MSG - 8
}
