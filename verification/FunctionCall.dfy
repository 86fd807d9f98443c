/**
 The message that carries an LLM function call to a stream function and its result back (ai/function_call.go,
 core/serverless/context_llm.go, pkg/bridge/ai/service.go).
 */
module FunctionCall {
  import opened Common

  const REDUCER_TAG := 0xE001

  datatype FnCall = FnCall(
    transId: string,
    reqId: string,
    result: string,
    retrievalResult: string,
    arguments: string,
    toolCallId: string,
    functionName: string,
    isOk: bool,
    error: string)

  /** Bytes on the wire. JSON is foreign code: taken to be invertible, and some bytes are not its output. */
  datatype Payload = Json(call: FnCall) | NotJson

  function Bytes(c: FnCall): (p: Payload) {
    Json(c)
  }

  /** Every field is copied but the error. */
  function FromBytes(p: Payload): (c: Option<FnCall>) {
    if p.Json? then Some(p.call.(error := "")) else None
  }

  /** A message survives the way exactly if it carries no error, and otherwise loses that alone. */
  lemma OnlyErrorIsLost(c: FnCall)
    ensures FromBytes(Bytes(c)) == Some(c) <==> c.error == ""
    ensures FromBytes(Bytes(c)) == Some(c.(error := ""))
  {
  }

  /** What fireLlmSfn sends. */
  function Fired(transId: string, reqId: string, toolCallId: string, name: string, arguments: string): (p: Payload) {
    Bytes(FnCall(transId, reqId, "", "", arguments, toolCallId, name, false, ""))
  }

  /** The stream function's side of one message. */
  class LlmContext {
    const data: Payload
    var fnCall: Option<FnCall>
    var written: seq<(int, Payload)>

    constructor (payload: Payload)
      ensures data == payload && fnCall == None && written == []
    {
      data, fnCall, written := payload, None, [];
    }

    /**
     Keeps the call even when it then fails for want of arguments; `decodes` is the foreign decoder's verdict on them.
     */
    method ReadLLMArguments(wanted: bool, decodes: bool) returns (ok: bool)
      modifies this`fnCall
      ensures fnCall == if data.Json? then FromBytes(data) else old(fnCall)
      ensures ok <==> data.Json? && (wanted ==> data.call.arguments != "") && decodes
    {
      var c := FromBytes(data);
      if c.None? {
        return false;
      }
      fnCall := c;
      if |c.value.arguments| == 0 && wanted {
        return false;
      }
      ok := decodes;
    }

    method WriteLLMResult(result: string) returns (ok: bool)
      modifies this
      ensures ok <==> old(fnCall).Some?
      ensures written == if ok
        then old(written) + [(REDUCER_TAG, Bytes(old(fnCall).value.(isOk := true, result := result)))] else old(written)
    {
      if fnCall.None? {
        return false;
      }
      fnCall := Some(fnCall.value.(isOk := true, result := result));
      written := written + [(REDUCER_TAG, Bytes(fnCall.value))];
      ok := true;
    }
  }

  /** A handler that reads its arguments and then writes a result: the reply it sends, if any. */
  function Reply(p: Payload, result: string): (r: Option<Payload>) {
    if p.Json? then Some(Bytes(p.call.(error := "", isOk := true, result := result))) else None
  }

  method Answer(p: Payload, wanted: bool, decodes: bool, result: string) returns (r: Option<Payload>)
    ensures r == Reply(p, result)
  {
    var ctx := new LlmContext(p);
    var read := ctx.ReadLLMArguments(wanted, decodes);
    var wrote := ctx.WriteLLMResult(result);
    r := if wrote then Some(ctx.written[0].1) else None;
  }

  /**
   Request and tool-call IDs survive the way out and back, whatever the function does; the result is the one written.
   */
  lemma ReplyIdentifiesCall(
    transId: string, reqId: string, toolCallId: string, name: string, arguments: string, result: string)
    ensures var r := Reply(Fired(transId, reqId, toolCallId, name, arguments), result);
      r.Some? && var c := FromBytes(r.value);
      c.Some? && c.value.reqId == reqId && c.value.toolCallId == toolCallId && c.value.result == result && c.value.isOk
      && c.value.transId == transId && c.value.functionName == name && c.value.arguments == arguments
  {
  }
}
