# Bitcoin Core JSON-RPC client — a Dafny model

This project models the core of a typed Rust client for the JSON-RPC interface of a Bitcoin Core
node (`src/bitcoincore.rs`):

- **Construction** (`BitcoinCoreClient::new`): a transport bound to the node's URL that sends the
  header `Authorization: Basic <base64(username:password)>` (RFC 7617, section 2) on every request,
  and a retry policy that is always 10 retries, 500 ms apart.
- **The retrying dispatch** (`BitcoinCoreClient::send`): every remote procedure ends here. The
  outcome of a call has two layers, `Result<Result<R, RpcError>, ClientError>`: the outer layer is a
  transport failure, the inner layer is the node's reply. `send` loops at most `max_retries` times.
  It retries only when the node replies with RPC error code -28 ("still starting"), and it sleeps
  `interval` ms before each retry. Any other outcome is returned at once. When every looped attempt
  was busy, it makes one last call and returns that call's outcome as it is.
- **The method adapters** (`impl BitcoinRpcApi for BitcoinCoreClient`): each remote procedure
  builds a request envelope and passes it to `send`. The envelope holds protocol version 1, id
  `"42"`, a method name and a positional parameter list. A few adapters rewrite their arguments:
  `list_unspent` turns its confirmation enum into a number, the raw-transaction wrappers fix the
  `verbose` flag, `get_block_verbose` adds verbosity 2, and `get_new_address` sends fixed arguments.

Modules, one per concern:

- `Wrappers` (wrappers.dfy): Rust's `Option` and `Result`.
- `Rpc` (rpc.dfy): the envelope library's value types, as the source uses them: JSON parameters,
  `RpcRequest`, `RpcError`, `ClientError`, the nested `Outcome`, and the `u32`/`u64`/`i32` widths.
- `Auth` (auth.dfy): the Basic credentials header, and how a receiver splits it back at the first
  colon.
- `BitcoinCore` (bitcoincore.dfy): the client record, `New`, and `Send`. `Send` is the loop.
  `Dispatch` is its closed form. The lemmas state the retry policy's guarantees.
- `Api` (api.dfy): one `ApiCall` constructor per remote procedure and `Request`, the envelope each
  one sends. `Parse` is the inverse of `Request`, and the two are proved to agree both ways.

The network is replaced by a scripted node. `node(n)` is the outcome of the n-th call that `send`
makes, counting from 0. `Send` returns the outcome and a log of its calls and sleeps, in order. Its
contract equates the outcome with `Dispatch` and the log with `Timeline`: one busy round (a call,
then a sleep) per retry, then the final call. Let `k` be the first call that is not
busy and `N` the number of retries. Then the outcome is that of call `min(k, N)`, there are
`min(k, N) + 1` calls, and there are `min(k, N)` pauses of the interval.

## Model

| member | source | states |
|---|---|---|
| `BitcoinCore.New` | src/bitcoincore.rs:28-53 | The client talks to `url` and sends exactly one default header, `authorization`, whose value is `Basic ` followed by the base64 of `username:password`. Its retry policy is always 10 retries at 500 ms. Construction requires a header value that `HeaderValue` accepts. |
| `BitcoinCore.NewClientWaitBudget` | src/bitcoincore.rs:48-51 | With the default policy, one request makes at most 11 calls and sleeps at most 5000 ms. A node that is busy for the first 10 calls costs exactly 11 calls and 5000 ms. |
| `BitcoinCore.FinalCall` | src/bitcoincore.rs:359-374 | The index of the call whose outcome is returned. It is at most the retry count. Every earlier call was busy. When it is below the retry count, that call was not busy. |
| `BitcoinCore.Dispatch` | src/bitcoincore.rs:355-375 | Closed form of `send`. It makes between 1 and retries + 1 calls and returns the last call's outcome unchanged. Every earlier call was busy. A returned outcome inside the loop is never busy. There is one pause of the configured interval per retry. |
| `BitcoinCore.IsBusy` | src/bitcoincore.rs:363-364 | The retry guard. A transport failure is never busy, and neither is a success. Of the node's errors, exactly code -28 is busy. |
| `BitcoinCore.Send` | src/bitcoincore.rs:355-375 | The loop with early return, a `continue` after the sleep, and the fall-through final call. Its outcome equals that of `Dispatch` for the client's policy. Its log of calls and sleeps, in order, equals `Timeline` for the retries `Dispatch` counts. |
| `BitcoinCore.BusyRounds` | src/bitcoincore.rs:360-369 | The events of `count` busy rounds alternate: calls at even positions, sleeps of the interval at odd ones. |
| `BitcoinCore.TimelineProjections` | src/bitcoincore.rs:360-374 | A `send` that retried `m` times made `m + 1` calls, each with the same request. Its sleeps are exactly the pauses of `Dispatch`. |
| `BitcoinCore.SleepsFallBetweenCalls` | src/bitcoincore.rs:361-368 | The log starts and ends with a call. Every sleep lasts the interval and has a call right before it and right after it, so there is no sleep before the first call or after the last. |
| `BitcoinCore.WithoutRetriesCallsOnce` | src/bitcoincore.rs:359-374 | With no policy, or with `max_retries = 0`, there is exactly one call, its outcome is returned as is, and there is no sleep. |
| `BitcoinCore.DispatchReturnsFirstSettled` | src/bitcoincore.rs:360-374 | If call `k` is the first non-busy one, the outcome is that of call `min(k, max_retries)`. Exactly `min(k, max_retries) + 1` calls are made and there are exactly `min(k, max_retries)` pauses of the interval. |
| `BitcoinCore.TransportFailureReturnedAtOnce` | src/bitcoincore.rs:361-371 | A transport failure on looped attempt `i`, after busy replies, is returned at once. There are `i + 1` calls and no further pause. |
| `BitcoinCore.SettledReplyReturnedAtOnce` | src/bitcoincore.rs:363-371 | A success, or an RPC error with a code other than -28, on looped attempt `i` is returned at once without using up further attempts. |
| `BitcoinCore.BusyReplyIsRetried` | src/bitcoincore.rs:364-368 | After a -28 reply to looped call `i`, the log holds call `i`, then a sleep of the interval, then call `i + 1`, in that order. |
| `BitcoinCore.AlwaysBusySurfacesFinalReply` | src/bitcoincore.rs:360-374 | If every looped attempt is busy, call number `max_retries + 1` is made and its outcome is returned unchanged, even when it is -28 again. |
| `BitcoinCore.TotalDelayOfEqualPauses` | src/bitcoincore.rs:367 | A run of pauses of the same interval sleeps their number times the interval. |
| `BitcoinCore.AlwaysBusyWaitsFullBudget` | src/bitcoincore.rs:360-374 | If all `N` looped attempts are busy, there are `N + 1` calls and exactly `N` times the interval of sleep, for any policy. |
| `BitcoinCore.DispatchDelay` | src/bitcoincore.rs:360-368 | `send` sleeps the interval times the number of retries it made, and never more than `max_retries` times the interval. |
| `Auth.UserPass` | src/bitcoincore.rs:34 | The user-pass is the username, one colon, then the password, at fixed positions. |
| `Auth.UserPassRoundTrip` | src/bitcoincore.rs:34 | Splitting `username:password` at its first colon gives back both parts if and only if the username has no colon. |
| `Auth.ColonInUserIdIsAmbiguous` | src/bitcoincore.rs:34 | An example of the converse: the client does not check the username, so `a:b`/`c` and `a`/`b:c` send the same credentials, which a receiver reads as the second pair. |
| `Auth.BasicCredentials` | src/bitcoincore.rs:32-35 | The header value is `Basic ` followed by the encoder's output for the user-pass. |
| `Auth.IsHeaderValue` | src/bitcoincore.rs:32-36 | The `HeaderValue::from_str` acceptance rule. An accepted value contains no CR, LF or NUL. |
| `Auth.Base64HeaderIsValid` | src/bitcoincore.rs:32-36 | If the encoder's output stays in the base64 alphabet, the header value is accepted, so the construction-time `unwrap` cannot fail. |
| `Auth.BasicCredentialsRoundTrip` | src/bitcoincore.rs:32-35 | Given a base64 decoder that inverts the encoder, the header parses back into the username and password, provided the username has no colon. |
| `Api.GetRawTransaction` | src/bitcoincore.rs:55-70 | The shared `getrawtransaction` envelope parses back as the verbose procedure when `verbose` is true, and as the serialized one when it is false. |
| `Api.MinConfirmations` | src/bitcoincore.rs:282-285 | `AtLeast(n)` is sent as n. The value sent is 0 exactly for `Unconfirmed` and `AtLeast(0)`. |
| `Api.Request` | src/bitcoincore.rs:73-351 | Every adapter's envelope has version V1, id "42", one of the node's method names, and at most 4 positional parameters. |
| `Api.RequestRoundTrip` | src/bitcoincore.rs:76-351 | Parsing the envelope of any call gives back that call. The one exception is `list_unspent`'s `AtLeast(0)`, which parses as `Unconfirmed`. |
| `Api.ParseSound` | src/bitcoincore.rs:76-351 | Every envelope that parses is exactly the envelope of the call it parses to. |
| `Api.RequestInjective` | src/bitcoincore.rs:76-351 | Two calls send the same envelope if and only if they are equal, up to the `list_unspent` 0 confirmation case. |
| `Api.ListUnspentConfirmations` | src/bitcoincore.rs:282-294 | `list_unspent` sends `Unconfirmed` as 0 and `AtLeast(n)` as n, as its first parameter. |
| `Api.RawTransactionVerboseFlag` | src/bitcoincore.rs:260-272 | `get_raw_transaction_serialized` and `_verbose` both send `getrawtransaction [txid, verbose]`, with `verbose` false and true respectively. |
| `Api.GetBlockVerbosity` | src/bitcoincore.rs:204-227 | `get_block_verbose` sends `getblock` with the parameters of `get_block` followed by verbosity 2. |
| `Api.GetNewAddressArguments` | src/bitcoincore.rs:250-258 | `get_new_address` always sends the label "" and the address type "bech32". |
| `Api.Invoke` | src/bitcoincore.rs:73-351 | A remote procedure passes its envelope to `send` unchanged. Its outcome is that of `Dispatch`, its log is the `Timeline` of its envelope, and every request in the log parses back as the call. |

## Left out

- The HTTP transport and the JSON-RPC envelope library's code (`RpcClient::send`, `HTTPClient::builder`) are foreign network I/O. The scripted `node` stands in for them. The failure of `HTTPClient::builder().build()` (line 42) is not modelled.
- serde (de)serialization is external. Domain values (addresses, scripts, hashes, transactions, the other `rpc` types) are opaque non-null JSON payloads. Response bodies are the opaque type parameter `R`, and a body that fails to decode is a `ClientError`.
- `std::thread::sleep` is not performed. Each sleep is recorded as its delay in milliseconds.
- The `info!` log line (line 365) is not modelled.
- The base64 encoder (RFC 4648, section 4) is a library call. It is a parameter of `New` and of the header functions, not an implementation.
- `HeaderValue::from_str(..).unwrap()` (line 36) is a precondition of `New`, not a modelled panic. `Auth.Base64HeaderIsValid` shows that a genuine base64 encoder always meets it.
- The floating-point arguments and results are passed through as opaque JSON. This covers `send_to_address`'s amount, which is `null` when it is NaN or infinite, and `get_balance`'s `f32`.
- tests/common/assert.rs starts a real node in a container. It has no logic to model.
- The client record's retry policy is an `Option`, and `send` handles its absence. But `new`, the only constructor, always installs the 10 × 500 ms policy. `Send` covers both cases, and `New` always gives `Some(DefaultRetryConfig)`.
