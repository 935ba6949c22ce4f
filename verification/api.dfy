/**
 * The typed remote procedures of `BitcoinRpcApi` as implemented for the
 * Bitcoin Core client: each packages its arguments into a request envelope
 * (protocol version 1, id "42", a method name, positional parameters) and
 * hands it to `send`. `Request` is that packaging, one case per procedure;
 * `Parse` reads an envelope back, and the two are proved inverse.
 */
module Api {
  import opened Wrappers
  import opened Rpc
  import opened BitcoinCore

  // Domain values the client only passes through, in their serialized form.
  type Address = Payload
  type Script = Payload
  type BlockHash = Payload
  type TransactionId = Payload
  type SerializedRawTransaction = Payload
  type NewTransactionInput = Payload
  type NewTransactionOutput = Payload
  type FundingOptions = Payload
  type PrivateKey = Payload
  type TransactionOutputDetail = Payload
  type SigHashType = Payload
  /** A floating-point amount of bitcoin, passed through untouched; `null` when not finite. */
  type Amount = Json

  /** The minimum number of confirmations asked of `listunspent` outputs. */
  datatype TxOutConfirmations = Unconfirmed | AtLeast(number: u32)

  /** One call of each remote procedure, with its arguments. */
  datatype ApiCall =
    | AddMultisigAddress(numberOfRequiredSignatures: u32, participants: seq<Address>)
    | CreateRawTransaction(inputs: seq<NewTransactionInput>, output: NewTransactionOutput)
    | DecodeRawTransaction(tx: SerializedRawTransaction)
    | DecodeScript(script: Script)
    | DumpPrivkey(address: Address)
    | FundRawTransaction(tx: SerializedRawTransaction, options: FundingOptions)
    | Generate(numberOfBlocks: u32)
    | GenerateToAddress(numberOfBlocks: u32, address: Address)
    | GetAddressInfo(address: Address)
    | GetBalance
    | GetBestBlockHash
    | GetBlock(headerHash: BlockHash)
    | GetBlockVerbose(headerHash: BlockHash)
    | GetBlockchainInfo
    | GetBlockCount
    | GetBlockHash(height: u32)
    | GetNewAddress
    | GetRawTransactionSerialized(txid: TransactionId)
    | GetRawTransactionVerbose(txid: TransactionId)
    | ListUnspent(minConfirmations: TxOutConfirmations, maxConfirmations: Option<u32>,
                  recipients: Option<seq<Address>>)
    | SendRawTransaction(tx: SerializedRawTransaction)
    | SendToAddress(address: Address, amount: Amount)
    | SignRawTransactionWithKey(tx: SerializedRawTransaction, privateKeys: Option<seq<PrivateKey>>,
                                dependencies: Option<seq<TransactionOutputDetail>>,
                                signatureHashType: Option<SigHashType>)
    | ValidateAddress(address: Address)

  /** The request id every call carries; calls are never in flight together. */
  const Id: string := "42"

  /** The node's method names the client uses. */
  const MethodNames: set<string> := {
    "addmultisigaddress", "createrawtransaction", "decoderawtransaction", "decodescript",
    "dumpprivkey", "fundrawtransaction", "generate", "generatetoaddress", "getaddressinfo",
    "getbalance", "getbestblockhash", "getblock", "getblockchaininfo", "getblockcount",
    "getblockhash", "getnewaddress", "getrawtransaction", "listunspent", "sendrawtransaction",
    "sendtoaddress", "signrawtransactionwithkey", "validateaddress"
  }

  function Envelope(methodName: string, params: seq<Json>): RpcRequest
  {
    RpcRequest(V1, Id, methodName, params)
  }

  function U32(n: u32): Json
  {
    Number(n as int)
  }

  /**
   * `getrawtransaction` with the `verbose` flag the caller fixes: the
   * envelope reads back as the serialized or the verbose procedure.
   */
  function GetRawTransaction(txid: TransactionId, verbose: bool): (r: RpcRequest)
    ensures Parse(r) == Some(if verbose then GetRawTransactionVerbose(txid) else GetRawTransactionSerialized(txid))
  {
    Envelope("getrawtransaction", [txid, Bool(verbose)])
  }

  /** The number `listunspent` sends for its minimum: `Unconfirmed` is 0. */
  function MinConfirmations(c: TxOutConfirmations): (n: u32)
    ensures c.AtLeast? ==> n == c.number
    ensures n == 0 <==> c == Unconfirmed || c == AtLeast(0)
  {
    match c
    case Unconfirmed => 0
    case AtLeast(number) => number
  }

  function OptionU32(o: Option<u32>): Json
  {
    match o
    case None => Null
    case Some(n) => U32(n)
  }

  /** The envelope each remote procedure sends. */
  function Request(call: ApiCall): (r: RpcRequest)
    ensures r.version == V1 && r.id == Id
    ensures r.methodName in MethodNames
    ensures |r.params| <= 4
  {
    match call
    case AddMultisigAddress(required, participants) =>
      Envelope("addmultisigaddress", [U32(required), Array(participants)])
    case CreateRawTransaction(inputs, output) =>
      Envelope("createrawtransaction", [Array(inputs), output])
    case DecodeRawTransaction(tx) => Envelope("decoderawtransaction", [tx])
    case DecodeScript(script) => Envelope("decodescript", [script])
    case DumpPrivkey(address) => Envelope("dumpprivkey", [address])
    case FundRawTransaction(tx, options) => Envelope("fundrawtransaction", [tx, options])
    case Generate(blocks) => Envelope("generate", [U32(blocks)])
    case GenerateToAddress(blocks, address) => Envelope("generatetoaddress", [U32(blocks), address])
    case GetAddressInfo(address) => Envelope("getaddressinfo", [address])
    case GetBalance => Envelope("getbalance", [])
    case GetBestBlockHash => Envelope("getbestblockhash", [])
    case GetBlock(hash) => Envelope("getblock", [hash])
    case GetBlockVerbose(hash) => Envelope("getblock", [hash, Number(2)])
    case GetBlockchainInfo => Envelope("getblockchaininfo", [])
    case GetBlockCount => Envelope("getblockcount", [])
    case GetBlockHash(height) => Envelope("getblockhash", [U32(height)])
    case GetNewAddress => Envelope("getnewaddress", [Str(""), Str("bech32")])
    case GetRawTransactionSerialized(txid) => GetRawTransaction(txid, false)
    case GetRawTransactionVerbose(txid) => GetRawTransaction(txid, true)
    case ListUnspent(min, max, recipients) =>
      Envelope("listunspent", [U32(MinConfirmations(min)), OptionU32(max), OptionArray(recipients)])
    case SendRawTransaction(tx) => Envelope("sendrawtransaction", [tx])
    case SendToAddress(address, amount) => Envelope("sendtoaddress", [address, amount])
    case SignRawTransactionWithKey(tx, keys, dependencies, hashType) =>
      Envelope("signrawtransactionwithkey",
               [tx, OptionArray(keys), OptionArray(dependencies), OptionJson(hashType)])
    case ValidateAddress(address) => Envelope("validateaddress", [address])
  }

  /**
   * The call as the node sees it: `listunspent` cannot tell `Unconfirmed`
   * from `AtLeast(0)`, both of which it receives as 0.
   */
  function Normalize(call: ApiCall): ApiCall
  {
    if call.ListUnspent? && call.minConfirmations == AtLeast(0)
    then call.(minConfirmations := Unconfirmed)
    else call
  }

  predicate IsU32(j: Json)
  {
    j.Number? && 0 <= j.n < 0x1_0000_0000
  }

  predicate IsPayloads(j: Json)
  {
    j.Array? && forall k :: 0 <= k < |j.items| ==> !j.items[k].Null?
  }

  function AsPayloads(j: Json): seq<Payload>
    requires IsPayloads(j)
  {
    seq(|j.items|, k requires 0 <= k < |j.items| => j.items[k])
  }

  predicate IsOptionU32(j: Json)
  {
    j.Null? || IsU32(j)
  }

  function AsOptionU32(j: Json): Option<u32>
    requires IsOptionU32(j)
  {
    if j.Null? then None else Some(j.n as u32)
  }

  predicate IsOptionPayloads(j: Json)
  {
    j.Null? || IsPayloads(j)
  }

  function AsOptionPayloads(j: Json): Option<seq<Payload>>
    requires IsOptionPayloads(j)
  {
    if j.Null? then None else Some(AsPayloads(j))
  }

  /** Reads a request envelope back into the call that produced it, if any. */
  function Parse(r: RpcRequest): Option<ApiCall>
  {
    var p := r.params;
    if r.version != V1 || r.id != Id then None
    else
      match r.methodName
      case "addmultisigaddress" =>
        if |p| == 2 && IsU32(p[0]) && IsPayloads(p[1])
        then Some(AddMultisigAddress(p[0].n as u32, AsPayloads(p[1]))) else None
      case "createrawtransaction" =>
        if |p| == 2 && IsPayloads(p[0]) && !p[1].Null?
        then Some(CreateRawTransaction(AsPayloads(p[0]), p[1])) else None
      case "decoderawtransaction" =>
        if |p| == 1 && !p[0].Null? then Some(DecodeRawTransaction(p[0])) else None
      case "decodescript" =>
        if |p| == 1 && !p[0].Null? then Some(DecodeScript(p[0])) else None
      case "dumpprivkey" =>
        if |p| == 1 && !p[0].Null? then Some(DumpPrivkey(p[0])) else None
      case "fundrawtransaction" =>
        if |p| == 2 && !p[0].Null? && !p[1].Null? then Some(FundRawTransaction(p[0], p[1])) else None
      case "generate" =>
        if |p| == 1 && IsU32(p[0]) then Some(Generate(p[0].n as u32)) else None
      case "generatetoaddress" =>
        if |p| == 2 && IsU32(p[0]) && !p[1].Null?
        then Some(GenerateToAddress(p[0].n as u32, p[1])) else None
      case "getaddressinfo" =>
        if |p| == 1 && !p[0].Null? then Some(GetAddressInfo(p[0])) else None
      case "getbalance" => if |p| == 0 then Some(GetBalance) else None
      case "getbestblockhash" => if |p| == 0 then Some(GetBestBlockHash) else None
      case "getblock" =>
        if |p| == 1 && !p[0].Null? then Some(GetBlock(p[0]))
        else if |p| == 2 && !p[0].Null? && p[1] == Number(2) then Some(GetBlockVerbose(p[0]))
        else None
      case "getblockchaininfo" => if |p| == 0 then Some(GetBlockchainInfo) else None
      case "getblockcount" => if |p| == 0 then Some(GetBlockCount) else None
      case "getblockhash" =>
        if |p| == 1 && IsU32(p[0]) then Some(GetBlockHash(p[0].n as u32)) else None
      case "getnewaddress" =>
        if p == [Str(""), Str("bech32")] then Some(GetNewAddress) else None
      case "getrawtransaction" =>
        if |p| == 2 && !p[0].Null? && p[1].Bool?
        then Some(if p[1].b then GetRawTransactionVerbose(p[0]) else GetRawTransactionSerialized(p[0]))
        else None
      case "listunspent" =>
        if |p| == 3 && IsU32(p[0]) && IsOptionU32(p[1]) && IsOptionPayloads(p[2])
        then
          var min := if p[0].n == 0 then Unconfirmed else AtLeast(p[0].n as u32);
          Some(ListUnspent(min, AsOptionU32(p[1]), AsOptionPayloads(p[2])))
        else None
      case "sendrawtransaction" =>
        if |p| == 1 && !p[0].Null? then Some(SendRawTransaction(p[0])) else None
      case "sendtoaddress" =>
        if |p| == 2 && !p[0].Null? then Some(SendToAddress(p[0], p[1])) else None
      case "signrawtransactionwithkey" =>
        if |p| == 4 && !p[0].Null? && IsOptionPayloads(p[1]) && IsOptionPayloads(p[2])
        then Some(SignRawTransactionWithKey(p[0], AsOptionPayloads(p[1]), AsOptionPayloads(p[2]), JsonOption(p[3])))
        else None
      case "validateaddress" =>
        if |p| == 1 && !p[0].Null? then Some(ValidateAddress(p[0])) else None
      case _ => None
  }

  /** Every call's envelope reads back as that call, up to `Normalize`. */
  lemma RequestRoundTrip(call: ApiCall)
    ensures Parse(Request(call)) == Some(Normalize(call))
  {
    if call.AddMultisigAddress? || call.CreateRawTransaction? {
      RoundTripArrays(call);
    } else if call.ListUnspent? || call.SignRawTransactionWithKey? {
      RoundTripOptions(call);
    } else if call.GetBlock? || call.GetBlockVerbose? || call.GetRawTransactionSerialized?
           || call.GetRawTransactionVerbose? || call.GetNewAddress? {
      RoundTripFixed(call);
    } else {
      RoundTripPlain(call);
    }
  }

  lemma RoundTripArrays(call: ApiCall)
    requires call.AddMultisigAddress? || call.CreateRawTransaction?
    ensures Parse(Request(call)) == Some(call)
  {
    if call.AddMultisigAddress? {
      PayloadsRoundTrip(call.participants);
    } else {
      PayloadsRoundTrip(call.inputs);
    }
  }

  lemma RoundTripOptions(call: ApiCall)
    requires call.ListUnspent? || call.SignRawTransactionWithKey?
    ensures Parse(Request(call)) == Some(Normalize(call))
  {
    if call.ListUnspent? {
      if call.recipients.Some? { PayloadsRoundTrip(call.recipients.value); }
    } else {
      if call.privateKeys.Some? { PayloadsRoundTrip(call.privateKeys.value); }
      if call.dependencies.Some? { PayloadsRoundTrip(call.dependencies.value); }
    }
  }

  lemma RoundTripFixed(call: ApiCall)
    requires call.GetBlock? || call.GetBlockVerbose? || call.GetRawTransactionSerialized?
          || call.GetRawTransactionVerbose? || call.GetNewAddress?
    ensures Parse(Request(call)) == Some(call)
  {
  }

  lemma RoundTripPlain(call: ApiCall)
    requires !(call.AddMultisigAddress? || call.CreateRawTransaction? || call.ListUnspent?
            || call.SignRawTransactionWithKey? || call.GetBlock? || call.GetBlockVerbose?
            || call.GetRawTransactionSerialized? || call.GetRawTransactionVerbose? || call.GetNewAddress?)
    ensures Parse(Request(call)) == Some(call)
  {
  }

  lemma PayloadsRoundTrip(xs: seq<Payload>)
    ensures IsPayloads(Array(xs)) && AsPayloads(Array(xs)) == xs
  {
  }

  /** `Parse` accepts only envelopes that some call produces: the one it returns. */
  lemma ParseSound(r: RpcRequest)
    requires Parse(r).Some?
    ensures Request(Parse(r).value) == r
  {
    var name := r.methodName;
    if name in {"addmultisigaddress", "createrawtransaction"} {
      ParseSoundArrays(r);
    } else if name in {"listunspent", "signrawtransactionwithkey"} {
      ParseSoundOptions(r);
    } else if name in {"getblock", "getrawtransaction", "getnewaddress", "getbalance",
                       "getbestblockhash", "getblockchaininfo", "getblockcount"} {
      ParseSoundFixed(r);
    } else {
      ParseSoundPlain(r);
    }
  }

  lemma ParseSoundArrays(r: RpcRequest)
    requires Parse(r).Some?
    requires r.methodName in {"addmultisigaddress", "createrawtransaction"}
    ensures Request(Parse(r).value) == r
  {
    var p := r.params;
    if r.methodName == "addmultisigaddress" {
      assert Array(AsPayloads(p[1])) == p[1];
    } else {
      assert Array(AsPayloads(p[0])) == p[0];
    }
  }

  lemma ParseSoundOptions(r: RpcRequest)
    requires Parse(r).Some?
    requires r.methodName in {"listunspent", "signrawtransactionwithkey"}
    ensures Request(Parse(r).value) == r
  {
    var p := r.params;
    if r.methodName == "listunspent" {
      if p[2].Array? { assert Array(AsPayloads(p[2])) == p[2]; }
    } else {
      if p[1].Array? { assert Array(AsPayloads(p[1])) == p[1]; }
      if p[2].Array? { assert Array(AsPayloads(p[2])) == p[2]; }
    }
  }

  lemma ParseSoundFixed(r: RpcRequest)
    requires Parse(r).Some?
    requires r.methodName in {"getblock", "getrawtransaction", "getnewaddress", "getbalance",
                              "getbestblockhash", "getblockchaininfo", "getblockcount"}
    ensures Request(Parse(r).value) == r
  {
  }

  lemma ParseSoundPlain(r: RpcRequest)
    requires Parse(r).Some?
    requires r.methodName !in {"addmultisigaddress", "createrawtransaction", "listunspent",
                               "signrawtransactionwithkey", "getblock", "getrawtransaction",
                               "getnewaddress", "getbalance", "getbestblockhash",
                               "getblockchaininfo", "getblockcount"}
    ensures Request(Parse(r).value) == r
  {
  }

  /** Two calls send the same envelope exactly when the node cannot tell them apart. */
  lemma RequestInjective(a: ApiCall, b: ApiCall)
    ensures Request(a) == Request(b) <==> Normalize(a) == Normalize(b)
  {
    RequestRoundTrip(a);
    RequestRoundTrip(b);
    if Normalize(a) == Normalize(b) {
      ParseSound(Request(a));
      ParseSound(Request(b));
    }
  }

  /** `listunspent` sends `Unconfirmed` as 0 and `AtLeast(n)` as n. */
  lemma ListUnspentConfirmations(min: TxOutConfirmations, max: Option<u32>, recipients: Option<seq<Address>>)
    ensures Request(ListUnspent(min, max, recipients)).params[0] ==
      Number(if min.Unconfirmed? then 0 else min.number as int)
  {
  }

  /** The two raw-transaction procedures differ only in the `verbose` flag they fix. */
  lemma RawTransactionVerboseFlag(txid: TransactionId)
    ensures Request(GetRawTransactionSerialized(txid)) == Envelope("getrawtransaction", [txid, Bool(false)])
    ensures Request(GetRawTransactionVerbose(txid)) == Envelope("getrawtransaction", [txid, Bool(true)])
  {
  }

  /** `get_block_verbose` is `getblock` with verbosity 2 appended. */
  lemma GetBlockVerbosity(hash: BlockHash)
    ensures Request(GetBlockVerbose(hash)).methodName == Request(GetBlock(hash)).methodName == "getblock"
    ensures Request(GetBlockVerbose(hash)).params == Request(GetBlock(hash)).params + [Number(2)]
  {
  }

  /** `getnewaddress` is always asked for a bech32 address with an empty label. */
  lemma GetNewAddressArguments()
    ensures Request(GetNewAddress).params == [Str(""), Str("bech32")]
  {
  }

  /**
   * A remote procedure: its envelope goes through `send` unchanged, so the
   * retry policy applies to every procedure alike and nowhere else.
   */
  method Invoke<R>(client: BitcoinCoreClient, call: ApiCall, node: nat -> Outcome<R>)
    returns (result: Outcome<R>, log: seq<Event>)
    ensures result == Dispatch(client.retryConfig, node).result
    ensures log == Timeline(Request(call), client.retryConfig, Dispatch(client.retryConfig, node).calls - 1)
    ensures forall k :: 0 <= k < |log| && log[k].Call? ==> Parse(log[k].request) == Some(Normalize(call))
  {
    RequestRoundTrip(call);
    result, log := Send(client, Request(call), node);
    ghost var m := Dispatch(client.retryConfig, node).calls - 1;
    ghost var interval := if client.retryConfig.None? then 0 else client.retryConfig.value.interval;
    assert log == BusyRounds(Request(call), interval, m) + [Call(Request(call))];
  }
}
