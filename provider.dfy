/**
 * The chat-completions endpoint seen from `Translator` (src/translators.py):
 * every request either answers or raises. The HTTP exchange itself is not
 * modelled; an `Endpoint` is an oracle holding the replies it will give, in
 * order, and a log of the requests it has received. `Retry` is the
 * specification of `_retry_call`: how many requests it makes and what it
 * returns, given those replies.
 */
module Provider {
  import opened Wrappers
  import opened TextUtil

  /**
   * One request's outcome: a value, or an exception described by its message
   * and by whether it is a network error (`URLError`, `TimeoutError`).
   */
  datatype Reply<T> = Ok(value: T) | Failed(message: string, network: bool)

  /**
   * Worth retrying: a network error, or a message that mentions HTTP 429,
   * "too many requests" or "rate limit" in any letter case.
   */
  predicate IsTransient<T>(r: Reply<T>)
    requires r.Failed?
  {
    var msg := Lower(r.message);
    r.network || Contains(msg, "429") || Contains(msg, "too many requests") || Contains(msg, "rate limit")
  }

  /** What an endpoint whose replies have run out does: it fails, and not transiently. */
  const Exhausted := "no reply"

  /** The reply to the request after `k` earlier ones. */
  function ReplyAt<T>(script: seq<Reply<T>>, k: nat): (r: Reply<T>)
    ensures k >= |script| ==> r == Failed(Exhausted, false)
    ensures k < |script| ==> r == script[k]
  {
    if k < |script| then script[k] else Failed(Exhausted, false)
  }

  /** The replies still to come after `n` requests. */
  function Drop<T>(script: seq<Reply<T>>, n: nat): (rest: seq<Reply<T>>)
    ensures forall k: nat :: ReplyAt(rest, k) == ReplyAt(script, n + k)
  {
    if n <= |script| then script[n..] else []
  }

  /** `n` copies of `x`: the request log of `n` attempts with the same payload. */
  function Repeat<Q>(x: Q, n: nat): (r: seq<Q>)
    ensures |r| == n
    ensures forall k :: 0 <= k < n ==> r[k] == x
  {
    seq(n, _ => x)
  }

  class Endpoint<Q, T> {
    /** The replies still to come, in order. */
    var script: seq<Reply<T>>
    /** Every request received so far, oldest first. */
    var sent: seq<Q>

    constructor (script: seq<Reply<T>>)
      ensures this.script == script && sent == []
    {
      this.script := script;
      sent := [];
    }

    /** One HTTP request: logged, answered by the next reply. */
    method Request(q: Q) returns (reply: Reply<T>)
      modifies this
      ensures reply == ReplyAt(old(script), 0)
      ensures script == Drop(old(script), 1)
      ensures sent == old(sent) + [q]
    {
      sent := sent + [q];
      if script == [] {
        reply := Failed(Exhausted, false);
      } else {
        reply := script[0];
        script := script[1..];
      }
    }
  }

  /** What `_retry_call` returns and how many requests it made. */
  datatype Outcome<T> = Outcome(result: Option<T>, calls: nat)

  /**
   * `_retry_call` after `k` attempts have failed transiently: give up once
   * `maxAttempts` attempts are used; return the first value; stop at the
   * first failure that is not transient.
   */
  function RetryFrom<T>(script: seq<Reply<T>>, k: nat, maxAttempts: int): (o: Outcome<T>)
    decreases maxAttempts - k
  {
    if k >= maxAttempts then Outcome(None, k)
    else match ReplyAt(script, k)
      case Ok(v) => Outcome(Some(v), k + 1)
      case Failed(_, _) =>
        if IsTransient(ReplyAt(script, k)) then RetryFrom(script, k + 1, maxAttempts)
        else Outcome(None, k + 1)
  }

  function Retry<T>(script: seq<Reply<T>>, maxAttempts: int): Outcome<T> {
    RetryFrom(script, 0, maxAttempts)
  }

  /** All replies before the `n`-th were transient failures. */
  ghost predicate TransientBefore<T>(script: seq<Reply<T>>, n: int) {
    forall j :: 0 <= j < n ==> ReplyAt(script, j).Failed? && IsTransient(ReplyAt(script, j))
  }

  /**
   * Everything `_retry_call` promises, from attempt `k` on: it makes at most
   * `maxAttempts` requests and at least one more when any is left; a value
   * is the reply to its last request, and every request before that failed
   * transiently; it returns None only after a failure that is not transient
   * or once the attempts are used up.
   */
  lemma {:induction false} RetryFromSpec<T>(script: seq<Reply<T>>, k: nat, maxAttempts: int)
    requires TransientBefore(script, k)
    ensures var o := RetryFrom(script, k, maxAttempts);
      && (k < maxAttempts ==> k < o.calls <= maxAttempts)
      && (k >= maxAttempts ==> o.calls == k)
      && TransientBefore(script, o.calls - 1)
      && (o.result.Some? ==> o.calls >= 1 && ReplyAt(script, o.calls - 1) == Ok(o.result.value))
      && (o.result.None? && o.calls > k ==>
            o.calls == maxAttempts
            || (ReplyAt(script, o.calls - 1).Failed? && !IsTransient(ReplyAt(script, o.calls - 1))))
    decreases maxAttempts - k
  {
    if k < maxAttempts {
      match ReplyAt(script, k)
      case Ok(v) =>
      case Failed(_, _) =>
        if IsTransient(ReplyAt(script, k)) {
          RetryFromSpec(script, k + 1, maxAttempts);
        }
    }
  }

  /** The promises of `RetryFromSpec` for a fresh call. */
  lemma RetrySpec<T>(script: seq<Reply<T>>, maxAttempts: int)
    ensures var o := Retry(script, maxAttempts);
      && (maxAttempts >= 1 ==> 1 <= o.calls <= maxAttempts)
      && (maxAttempts < 1 ==> o.calls == 0 && o.result.None?)
      && TransientBefore(script, o.calls - 1)
      && (o.result.Some? ==> ReplyAt(script, o.calls - 1) == Ok(o.result.value))
      && (o.result.None? && o.calls >= 1 ==>
            o.calls == maxAttempts
            || (ReplyAt(script, o.calls - 1).Failed? && !IsTransient(ReplyAt(script, o.calls - 1))))
  {
    RetryFromSpec(script, 0, maxAttempts);
  }

  /** With any attempt allowed, at least one request is made. */
  lemma RetryCallsPositive<T>(script: seq<Reply<T>>, maxAttempts: int)
    requires maxAttempts >= 1
    ensures Retry(script, maxAttempts).calls >= 1
  {
    RetryFromSpec(script, 0, maxAttempts);
  }

  /** A first reply that answers is returned at once, after a single request. */
  lemma RetryFirstOk<T>(script: seq<Reply<T>>, maxAttempts: int, v: T)
    requires maxAttempts >= 1 && ReplyAt(script, 0) == Ok(v)
    ensures Retry(script, maxAttempts) == Outcome(Some(v), 1)
  {
  }

  /** An endpoint that only ever fails transiently is asked exactly `maxAttempts` times. */
  lemma {:induction false} RetryExhausts<T>(script: seq<Reply<T>>, k: nat, maxAttempts: int)
    requires forall j :: k <= j < maxAttempts ==> ReplyAt(script, j).Failed? && IsTransient(ReplyAt(script, j))
    requires k <= maxAttempts
    ensures RetryFrom(script, k, maxAttempts) == Outcome(None, maxAttempts)
    decreases maxAttempts - k
  {
    if k < maxAttempts {
      RetryExhausts(script, k + 1, maxAttempts);
    }
  }

  /**
   * `_request_batch` after the HTTP exchange: the reply text coerced by
   * `coerce` (the model of `_coerce_json_array`), whose failure raises a
   * RuntimeError that is never retried.
   */
  function BatchReply(raw: Reply<string>, coerce: string -> Option<seq<string>>): (r: Reply<seq<string>>)
    ensures raw.Failed? ==> r == Failed(raw.message, raw.network)
    ensures raw.Ok? && coerce(raw.value).Some? ==> r == Ok(coerce(raw.value).value)
    ensures raw.Ok? && coerce(raw.value).None? ==> r.Failed? && !IsTransient(r)
  {
    match raw
    case Failed(m, net) => Failed(m, net)
    case Ok(text) =>
      match coerce(text)
      case Some(arr) => Ok(arr)
      case None =>
        var m := "Batch output format mismatch";
        var low := Lower(m);
        NotContainsByChar(low, "429", 0);
        NotContainsByChar(low, "too many requests", 7);
        NotContainsByChar(low, "rate limit", 5);
        Failed(m, false)
  }
}
