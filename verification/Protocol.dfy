// The frames of the services' RPC protocol (shared/protocol.py, shared/proc_rpc.py, shared/service_base.py). Payloads,
// results and details are kept as JSON text.
module Protocol {
  import opened Common

  datatype Frame =
    | Request(id: string, op: string, payload: string)
    | Event(id: string, name: string, payload: string)
    | Ok(id: string, result: string)
    | Error(id: string, error: string, errorType: string, details: string)

  const EMPTY_OBJECT := "{}"

  function OkResponse(id: string, result: Option<string>): Frame {
    Ok(id, if result.Some? then result.value else EMPTY_OBJECT)
  }

  function ErrorResponse(id: string, error: string, errorType: string): Frame {
    Error(id, error, errorType, EMPTY_OBJECT)
  }
}
