/**
 * The Bitcoin Core client: its construction (authenticated transport and
 * default retry policy) and the one place where calls reach the node, the
 * retrying `send`.
 *
 * The HTTP transport is replaced by a scripted node: `node(n)` is the
 * outcome of the n-th call (counting from 0) that `send` makes. Blocking
 * sleeps are recorded as the list of delays, in milliseconds, in the order
 * they were taken.
 */
module BitcoinCore {
  import opened Wrappers
  import opened Rpc
  import Auth

  /** How often, and how far apart, a call to a starting node is retried. */
  datatype RetryConfig = RetryConfig(maxRetries: u32, interval: u64)

  /** The policy every client built by `New` carries: 10 retries, 500 ms apart. */
  const DefaultRetryConfig := RetryConfig(10, 500)

  /** The RPC error code with which the node says it is still starting up. */
  const NodeStarting: i32 := -28

  /** The name under which the Basic credentials travel (`http::header::AUTHORIZATION`). */
  const Authorization: string := "authorization"

  /** The envelope library's client: a base URL and headers sent on every request. */
  datatype RpcClient = RpcClient(url: string, defaultHeaders: map<string, string>)

  datatype BitcoinCoreClient = BitcoinCoreClient(client: RpcClient, retryConfig: Option<RetryConfig>)

  /**
   * Builds a client for `url` whose every request carries the Basic
   * credentials of `username` and `password`, with the default retry policy.
   * Construction aborts when the header value has characters `HeaderValue`
   * refuses; that is the precondition here.
   */
  function New(url: string, username: string, password: string, base64: string -> string): (c: BitcoinCoreClient)
    requires Auth.IsHeaderValue(Auth.BasicCredentials(username, password, base64))
    ensures c.client.url == url
    ensures c.client.defaultHeaders.Keys == {Authorization}
    ensures c.client.defaultHeaders[Authorization] == Auth.BasicCredentials(username, password, base64)
    ensures c.retryConfig == Some(DefaultRetryConfig)
  {
    var headers := map[Authorization := Auth.BasicCredentials(username, password, base64)];
    BitcoinCoreClient(RpcClient(url, headers), Some(RetryConfig(10, 500)))
  }

  /**
   * The node answered, with the "still starting" error: never a transport
   * failure, never a success, and of the node's errors only code -28.
   */
  predicate IsBusy<R>(o: Outcome<R>): (busy: bool)
    ensures o.Err? ==> !busy
    ensures o.Ok? && o.value.Ok? ==> !busy
    ensures o.Ok? && o.value.Err? ==> (busy <==> o.value.error.code == -28)
  {
    o.Ok? && o.value.Err? && o.value.error.code == NodeStarting
  }

  /** How many looped attempts a policy allows; none without a policy. */
  function Retries(config: Option<RetryConfig>): nat
  {
    if config.None? then 0 else config.value.maxRetries as nat
  }

  /**
   * The index of the call whose outcome `send` returns, searching from
   * call `from` with `retries` looped attempts: the first call that is not
   * busy, or the unconditional call `retries` when every looped one was.
   */
  function FinalCall<R>(node: nat -> Outcome<R>, from: nat, retries: nat): (m: nat)
    requires from <= retries
    ensures from <= m <= retries
    ensures forall j :: from <= j < m ==> IsBusy(node(j))
    ensures m < retries ==> !IsBusy(node(m))
    decreases retries - from
  {
    if from == retries || !IsBusy(node(from)) then from
    else FinalCall(node, from + 1, retries)
  }

  /** What one `send` does: its result, how many calls it made, the delays it slept. */
  datatype Trace<R> = Trace(result: Outcome<R>, calls: nat, pauses: seq<u64>)

  /** The delays of `count` retries under `config`. */
  function Pauses(config: Option<RetryConfig>, count: nat): (p: seq<u64>)
    requires config.None? ==> count == 0
    ensures |p| == count
    ensures forall k :: 0 <= k < count ==> p[k] == config.value.interval
  {
    if config.None? then [] else seq(count, _ => config.value.interval)
  }

  /**
   * The closed form of `send`: the outcome returned is that of the first
   * call the node did not answer "still starting", or of the call after the
   * last looped one; one call more than retries were made, one pause per retry.
   */
  function Dispatch<R>(config: Option<RetryConfig>, node: nat -> Outcome<R>): (t: Trace<R>)
    ensures 1 <= t.calls <= Retries(config) + 1
    ensures t.result == node(t.calls - 1)
    ensures forall j :: 0 <= j < t.calls - 1 ==> IsBusy(node(j))
    ensures t.calls <= Retries(config) ==> !IsBusy(t.result)
    ensures |t.pauses| == t.calls - 1
    ensures forall k :: 0 <= k < |t.pauses| ==> t.pauses[k] == config.value.interval
  {
    var m := FinalCall(node, 0, Retries(config));
    Trace(node(m), m + 1, Pauses(config, m))
  }

  /** What `send` does on the wire and on the clock, in the order it does it. */
  datatype Event = Call(request: RpcRequest) | Sleep(ms: u64)

  /** `count` busy rounds of `send`'s loop: a call, then a sleep of `interval`. */
  function BusyRounds(request: RpcRequest, interval: u64, count: nat): (log: seq<Event>)
    ensures |log| == 2 * count
    ensures forall k :: 0 <= k < |log| ==>
      log[k] == if k % 2 == 0 then Call(request) else Sleep(interval)
  {
    if count == 0 then []
    else BusyRounds(request, interval, count - 1) + [Call(request), Sleep(interval)]
  }

  /** The events of a `send` that retried `retries` times: the busy rounds, then the call that settled. */
  function Timeline(request: RpcRequest, config: Option<RetryConfig>, retries: nat): seq<Event>
    requires config.None? ==> retries == 0
  {
    BusyRounds(request, if config.None? then 0 else config.value.interval, retries) + [Call(request)]
  }

  /** The requests put on the wire, in order. */
  function Requests(log: seq<Event>): seq<RpcRequest>
  {
    if |log| == 0 then []
    else Requests(log[..|log| - 1]) + if log[|log| - 1].Call? then [log[|log| - 1].request] else []
  }

  /** The delays slept, in order. */
  function Delays(log: seq<Event>): seq<u64>
  {
    if |log| == 0 then []
    else Delays(log[..|log| - 1]) + if log[|log| - 1].Sleep? then [log[|log| - 1].ms] else []
  }

  /**
   * Sends `request` to the node, retrying while it reports that it is still
   * starting. `log` records each call and each sleep in the order they happen.
   */
  method Send<R>(self: BitcoinCoreClient, request: RpcRequest, node: nat -> Outcome<R>)
    returns (result: Outcome<R>, log: seq<Event>)
    ensures result == Dispatch(self.retryConfig, node).result
    ensures log == Timeline(request, self.retryConfig, Dispatch(self.retryConfig, node).calls - 1)
  {
    log := [];
    var calls := 0;
    if self.retryConfig.Some? {
      var config := self.retryConfig.value;
      for i := 0 to config.maxRetries as nat
        invariant calls == i
        invariant log == BusyRounds(request, config.interval, i)
        invariant forall j :: 0 <= j < i ==> IsBusy(node(j))
      {
        result := node(calls);
        calls := calls + 1;
        log := log + [Call(request)];
        if IsBusy(result) {
          log := log + [Sleep(config.interval)];
          continue;
        }
        FinalCallIs(node, Retries(self.retryConfig), i);
        return;
      }
    }
    result := node(calls);
    log := log + [Call(request)];
    FinalCallIs(node, Retries(self.retryConfig), calls);
  }

  /** Splitting off the last busy round adds one request and one delay. */
  lemma {:induction false} BusyRoundsProjections(request: RpcRequest, interval: u64, count: nat)
    ensures Requests(BusyRounds(request, interval, count)) == seq(count, _ => request)
    ensures Delays(BusyRounds(request, interval, count)) == seq(count, _ => interval)
  {
    if count > 0 {
      var prefix := BusyRounds(request, interval, count - 1);
      var log := BusyRounds(request, interval, count);
      BusyRoundsProjections(request, interval, count - 1);
      assert log[..|log| - 1] == prefix + [Call(request)];
      assert (prefix + [Call(request)])[..|prefix|] == prefix;
    }
  }

  /**
   * A `send` that retried `m` times made `m + 1` calls, all with the same
   * request, and slept the interval `m` times: the delays of `Dispatch`.
   */
  lemma {:induction false} TimelineProjections(request: RpcRequest, config: Option<RetryConfig>, m: nat)
    requires config.None? ==> m == 0
    ensures Requests(Timeline(request, config, m)) == seq(m + 1, _ => request)
    ensures Delays(Timeline(request, config, m)) == Pauses(config, m)
  {
    var interval := if config.None? then 0 else config.value.interval;
    var log := Timeline(request, config, m);
    BusyRoundsProjections(request, interval, m);
    assert log[..|log| - 1] == BusyRounds(request, interval, m);
  }

  /**
   * The log starts and ends with a call, and every sleep lies between two
   * calls: `send` never sleeps before its first call or after its last.
   */
  lemma SleepsFallBetweenCalls(request: RpcRequest, config: Option<RetryConfig>, m: nat)
    requires config.None? ==> m == 0
    ensures var log := Timeline(request, config, m);
      log[0] == Call(request) && log[|log| - 1] == Call(request)
    ensures var log := Timeline(request, config, m);
      forall k :: 0 <= k < |log| && log[k].Sleep? ==>
        0 < k < |log| - 1 && log[k - 1] == Call(request) && log[k + 1] == Call(request)
        && log[k].ms == config.value.interval
  {
    var interval := if config.None? then 0 else config.value.interval;
    var rounds := BusyRounds(request, interval, m);
    var log := Timeline(request, config, m);
    forall k | 0 <= k < |log| && log[k].Sleep?
      ensures 0 < k < |log| - 1 && log[k - 1] == Call(request) && log[k + 1] == Call(request)
      ensures log[k].ms == config.value.interval
    {
      assert k < |rounds| && log[k] == rounds[k];
      assert k % 2 == 1;
      assert log[k - 1] == rounds[k - 1];
      if k + 1 < |rounds| {
        assert log[k + 1] == rounds[k + 1];
      }
    }
  }

  /** `FinalCall` is the only index with its three properties. */
  lemma FinalCallIs<R>(node: nat -> Outcome<R>, retries: nat, m: nat)
    requires m <= retries
    requires forall j :: 0 <= j < m ==> IsBusy(node(j))
    requires m < retries ==> !IsBusy(node(m))
    ensures FinalCall(node, 0, retries) == m
  {
  }

  function Min(a: nat, b: nat): nat
  {
    if a <= b then a else b
  }

  /** The interval of a policy; nothing is slept without one. */
  function Interval(config: Option<RetryConfig>): nat
  {
    if config.None? then 0 else config.value.interval as nat
  }

  /** The time spent sleeping, in milliseconds. */
  function TotalDelay(pauses: seq<u64>): nat
  {
    if |pauses| == 0 then 0 else TotalDelay(pauses[..|pauses| - 1]) + pauses[|pauses| - 1] as nat
  }

  /** Without a policy, or with zero retries, one call is made and its outcome returned as is. */
  lemma WithoutRetriesCallsOnce<R>(config: Option<RetryConfig>, node: nat -> Outcome<R>)
    requires Retries(config) == 0
    ensures Dispatch(config, node) == Trace(node(0), 1, [])
  {
  }

  /**
   * If call `k` is the first the node does not answer "still starting", the
   * outcome returned is that of call `min(k, retries)`, after that many pauses.
   */
  lemma DispatchReturnsFirstSettled<R>(config: Option<RetryConfig>, node: nat -> Outcome<R>, k: nat)
    requires forall j :: 0 <= j < k ==> IsBusy(node(j))
    requires !IsBusy(node(k))
    ensures var m := Min(k, Retries(config));
      Dispatch(config, node) == Trace(node(m), m + 1, Pauses(config, m))
  {
    FinalCallIs(node, Retries(config), Min(k, Retries(config)));
  }

  /** A transport failure on a looped attempt is returned at once: no further call, no pause. */
  lemma TransportFailureReturnedAtOnce<R>(config: Option<RetryConfig>, node: nat -> Outcome<R>, i: nat)
    requires i < Retries(config)
    requires forall j :: 0 <= j < i ==> IsBusy(node(j))
    requires node(i).Err?
    ensures Dispatch(config, node) == Trace(node(i), i + 1, Pauses(config, i))
  {
    DispatchReturnsFirstSettled(config, node, i);
  }

  /**
   * A reply that is a success, or an RPC error other than "still starting",
   * is returned at once without using up further attempts.
   */
  lemma SettledReplyReturnedAtOnce<R>(config: Option<RetryConfig>, node: nat -> Outcome<R>, i: nat)
    requires i < Retries(config)
    requires forall j :: 0 <= j < i ==> IsBusy(node(j))
    requires node(i).Ok? && (node(i).value.Ok? || node(i).value.error.code != NodeStarting)
    ensures Dispatch(config, node) == Trace(node(i), i + 1, Pauses(config, i))
  {
    DispatchReturnsFirstSettled(config, node, i);
  }

  /**
   * A "still starting" reply to looped call `i` is followed, in this order,
   * by a sleep of the interval and by call `i + 1`.
   */
  lemma BusyReplyIsRetried<R>(config: Option<RetryConfig>, node: nat -> Outcome<R>, request: RpcRequest, i: nat)
    requires i < Retries(config)
    requires forall j :: 0 <= j <= i ==> IsBusy(node(j))
    ensures Dispatch(config, node).calls >= i + 2
    ensures var log := Timeline(request, config, Dispatch(config, node).calls - 1);
      log[2 * i] == Call(request) && log[2 * i + 1] == Sleep(config.value.interval)
      && log[2 * i + 2] == Call(request)
  {
    var m := Dispatch(config, node).calls - 1;
    var rounds := BusyRounds(request, config.value.interval, m);
    var log := Timeline(request, config, m);
    assert log[2 * i] == rounds[2 * i];
    assert log[2 * i + 1] == rounds[2 * i + 1];
    if 2 * i + 2 < |rounds| {
      assert log[2 * i + 2] == rounds[2 * i + 2];
    }
  }

  /**
   * When every looped attempt finds the node starting, the unconditional
   * last call is made and its outcome returned as it is, busy or not.
   */
  lemma AlwaysBusySurfacesFinalReply<R>(config: Option<RetryConfig>, node: nat -> Outcome<R>)
    requires forall j :: 0 <= j < Retries(config) ==> IsBusy(node(j))
    ensures var n := Retries(config);
      Dispatch(config, node) == Trace(node(n), n + 1, Pauses(config, n))
  {
    FinalCallIs(node, Retries(config), Retries(config));
  }

  /** A run of equal delays adds up to their number times the delay. */
  lemma {:induction false} TotalDelayOfEqualPauses(pauses: seq<u64>, interval: u64)
    requires forall k :: 0 <= k < |pauses| ==> pauses[k] == interval
    ensures TotalDelay(pauses) == |pauses| * interval as nat
  {
    if |pauses| > 0 {
      TotalDelayOfEqualPauses(pauses[..|pauses| - 1], interval);
    }
  }

  /** `send` sleeps the interval once per retry, so never longer than retries times the interval. */
  lemma {:induction false} DispatchDelay<R>(config: Option<RetryConfig>, node: nat -> Outcome<R>)
    ensures TotalDelay(Dispatch(config, node).pauses) == (Dispatch(config, node).calls - 1) * Interval(config)
    ensures TotalDelay(Dispatch(config, node).pauses) <= Retries(config) * Interval(config)
  {
    var t := Dispatch(config, node);
    if config.Some? {
      TotalDelayOfEqualPauses(t.pauses, config.value.interval);
    } else {
      assert t.pauses == [];
    }
  }

  /**
   * A node that is still starting through every looped attempt costs
   * retries + 1 calls and exactly retries times the interval of sleep.
   */
  lemma AlwaysBusyWaitsFullBudget<R>(config: Option<RetryConfig>, node: nat -> Outcome<R>)
    requires forall j :: 0 <= j < Retries(config) ==> IsBusy(node(j))
    ensures Dispatch(config, node).calls == Retries(config) + 1
    ensures TotalDelay(Dispatch(config, node).pauses) == Retries(config) * Interval(config)
  {
    AlwaysBusySurfacesFinalReply(config, node);
    DispatchDelay(config, node);
  }

  /**
   * A client built by `New` calls the node at most 11 times and sleeps at
   * most 5000 ms per request; a node starting for 10 calls uses up all of it.
   */
  lemma NewClientWaitBudget<R>(url: string, username: string, password: string,
                               base64: string -> string, node: nat -> Outcome<R>)
    requires Auth.IsHeaderValue(Auth.BasicCredentials(username, password, base64))
    ensures var t := Dispatch(New(url, username, password, base64).retryConfig, node);
      t.calls <= 11 && TotalDelay(t.pauses) <= 5000
    ensures (forall j :: 0 <= j < 10 ==> IsBusy(node(j))) ==>
      var t := Dispatch(New(url, username, password, base64).retryConfig, node);
      t.calls == 11 && TotalDelay(t.pauses) == 5000
  {
    var config := New(url, username, password, base64).retryConfig;
    DispatchDelay(config, node);
    if forall j :: 0 <= j < 10 ==> IsBusy(node(j)) {
      AlwaysBusySurfacesFinalReply(config, node);
    }
  }
}
