/** The fields of FCGX_Request that the streams of a request share. */
module Requests {
  class Request {
    var requestId: int
    var role: int
    var keepConnection: bool
    var isBeginProcessed: bool
    var appStatus: int
    var nWriters: int

    /** FCGX_InitRequest zeroes every field. */
    constructor ()
      ensures requestId == 0 && role == 0 && !keepConnection && !isBeginProcessed
      ensures appStatus == 0 && nWriters == 0
    {
      requestId, role, keepConnection, isBeginProcessed := 0, 0, false, false;
      appStatus, nWriters := 0, 0;
    }
  }
}
