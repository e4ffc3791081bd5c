/** What the managers answer to an applied entry. */
module Replies {
  datatype Code = Success | InputParamError | InternalError | ParseToPbFail | PeerNotEqual | NotLeader

  datatype Reply = Reply(code: Code, msg: string)

  const DONE := Reply(Success, "success")
  const WRITE_FAIL := Reply(InternalError, "write db fail")
  const DELETE_FAIL := Reply(InternalError, "delete from db fail")

  function Refuse(msg: string): Reply {
    Reply(InputParamError, msg)
  }
}
