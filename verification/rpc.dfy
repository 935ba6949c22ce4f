/**
 * The value types of the JSON-RPC envelope library the client is built on
 * (`JsonRpcVersion`, `RpcRequest`, `RpcError`, `ClientError`) and the
 * fixed-width integers of the Rust signatures. The library's own code
 * (HTTP transport, serde) is not part of this model; only its data is.
 */
module Rpc {
  import opened Wrappers

  newtype u32 = x: int | 0 <= x < 0x1_0000_0000
  newtype u64 = x: int | 0 <= x < 0x1_0000_0000_0000_0000
  newtype i32 = x: int | -0x8000_0000 <= x < 0x8000_0000

  /** A serialized JSON value: what serde makes of a positional parameter. */
  datatype Json =
    | Null
    | Bool(b: bool)
    | Number(n: int)
    | Str(s: string)
    | Array(items: seq<Json>)
    | Object(fields: seq<(string, Json)>)

  /**
   * The serialized form of a domain value the client only passes through
   * (addresses, scripts, hashes, transactions, signing options). Their serde
   * encodings are structs, strings or numbers, never `null`, which is what
   * lets `None` be sent as `null` unambiguously. Floating-point amounts are
   * not payloads: a NaN or infinite amount is written as `null`.
   */
  type Payload = j: Json | !j.Null? witness Bool(false)

  datatype JsonRpcVersion = V1 | V2

  datatype RpcRequest = RpcRequest(
    version: JsonRpcVersion,
    id: string,
    methodName: string,
    params: seq<Json>)

  /** An error object reported by the node inside a well-formed reply. */
  datatype RpcError = RpcError(code: i32, message: string)

  /**
   * A transport-level failure: connection refused, timeout, a malformed HTTP
   * body, or a body that does not deserialize into the expected type.
   */
  datatype ClientError = ClientError(reason: string)

  /**
   * The outcome of one call, `Result<Result<R, RpcError>, ClientError>`:
   * the outer layer is the transport, the inner layer the node's reply.
   */
  type Outcome<R> = Result<Result<R, RpcError>, ClientError>

  /** The `serde` encoding of an `Option<T>` whose `T` encodes as `j`. */
  function OptionJson(o: Option<Payload>): (j: Json)
    ensures j.Null? <==> o.None?
  {
    match o
    case None => Null
    case Some(p) => p
  }

  /** Decoder for `OptionJson`: `null` is `None`, anything else `Some`. */
  function JsonOption(j: Json): (o: Option<Payload>)
    ensures OptionJson(o) == j
  {
    if j.Null? then None else Some(j)
  }

  /** The `serde` encoding of an `Option<Vec<T>>`. */
  function OptionArray(o: Option<seq<Payload>>): (j: Json)
    ensures j.Null? <==> o.None?
    ensures o.Some? ==> j.Array? && |j.items| == |o.value|
  {
    match o
    case None => Null
    case Some(xs) => Array(xs)
  }
}
