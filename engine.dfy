/**
 * `Translator` of src/translators.py: single-string translation through the
 * cache and the provider, and batch translation with de-duplication,
 * chunking, per-string fallback and placeholder validation.
 */
module Engine {
  import opened Wrappers
  import opened TextUtil
  import opened Tokens
  import opened Cache
  import opened Provider

  /** A string sent to the provider together with the target locale. */
  type SingleRequest = (string, string)
  /** A chunk of strings sent to the provider together with the target locale. */
  type BatchRequest = (seq<string>, string)

  /** Strings `translate` hands back untouched: empty, Cyrillic-only, or without a Latin letter. */
  predicate PassThrough(t: string) {
    t == "" || LooksRussianOnly(t) || !HasLatin(t)
  }

  /** Only the Latin-letter test matters: the two other pass-through tests imply it. */
  lemma PassThroughIffNoLatin(t: string)
    ensures PassThrough(t) <==> !HasLatin(t)
  {
  }

  /** The strings of `xs` in order, with `xs` flattened. */
  function Flatten(xss: seq<seq<string>>): (r: seq<string>)
    ensures xss == [] ==> r == []
  {
    if xss == [] then [] else Flatten(xss[..|xss| - 1]) + xss[|xss| - 1]
  }

  lemma {:induction false} FlattenMember(xss: seq<seq<string>>, c: nat, j: nat)
    requires c < |xss| && j < |xss[c]|
    ensures xss[c][j] in Flatten(xss)
  {
    var n := |xss| - 1;
    if c < n {
      FlattenMember(xss[..n], c, j);
    } else {
      assert Flatten(xss)[|Flatten(xss[..n])| + j] == xss[c][j];
    }
  }

  predicate Distinct(xs: seq<string>) {
    forall a, b :: 0 <= a < b < |xs| ==> xs[a] != xs[b]
  }

  lemma DistinctNotInPrefix(xs: seq<string>, j: nat)
    requires Distinct(xs) && j < |xs|
    ensures xs[j] !in xs[..j]
  {
    forall a | 0 <= a < j
      ensures xs[..j][a] != xs[j]
    {
    }
  }

  lemma FlattenSnoc(xss: seq<seq<string>>, x: seq<string>)
    ensures Flatten(xss + [x]) == Flatten(xss) + x
  {
    assert (xss + [x])[..|xss|] == xss;
  }

  lemma {:induction false} FlattenCons(x: seq<string>, xss: seq<seq<string>>)
    ensures Flatten([x] + xss) == x + Flatten(xss)
  {
    if xss == [] {
      assert [x] + xss == [] + [x];
      FlattenSnoc([], x);
    } else {
      var front, last := xss[..|xss| - 1], xss[|xss| - 1];
      assert xss == front + [last];
      assert [x] + xss == ([x] + front) + [last];
      calc {
        Flatten([x] + xss);
        { FlattenSnoc([x] + front, last); }
        Flatten([x] + front) + last;
        { FlattenCons(x, front); }
        (x + Flatten(front)) + last;
        { AppendAssoc(x, Flatten(front), last); }
        x + (Flatten(front) + last);
        { FlattenSnoc(front, last); }
        x + Flatten(xss);
      }
    }
  }

  lemma AppendAssoc<T>(a: seq<T>, b: seq<T>, c: seq<T>)
    ensures (a + b) + c == a + (b + c)
  {
  }

  /** `[xs[off : off + size] for off in range(0, len(xs), size)]` */
  function Chunks(xs: seq<string>, size: int): seq<seq<string>>
    requires size >= 1
    decreases |xs|
  {
    if xs == [] then []
    else
      var e := if size < |xs| then size else |xs|;
      [xs[..e]] + Chunks(xs[e..], size)
  }

  /** The chunks cover the strings in order; each holds between one and `size` of them, and all but the last exactly `size`. */
  lemma ChunksSpec(xs: seq<string>, size: int)
    requires size >= 1
    ensures Flatten(Chunks(xs, size)) == xs
    ensures forall c :: 0 <= c < |Chunks(xs, size)| ==> 1 <= |Chunks(xs, size)[c]| <= size
    ensures forall c :: 0 <= c < |Chunks(xs, size)| - 1 ==> |Chunks(xs, size)[c]| == size
  {
    ChunksCover(xs, size);
    ChunksSizes(xs, size);
  }

  lemma {:induction false} ChunksCover(xs: seq<string>, size: int)
    requires size >= 1
    ensures Flatten(Chunks(xs, size)) == xs
    decreases |xs|
  {
    if xs != [] {
      var e := if size < |xs| then size else |xs|;
      ChunksCover(xs[e..], size);
      FlattenCons(xs[..e], Chunks(xs[e..], size));
      assert xs[..e] + xs[e..] == xs;
    }
  }

  lemma {:induction false} ChunksSizes(xs: seq<string>, size: int)
    requires size >= 1
    ensures forall c :: 0 <= c < |Chunks(xs, size)| ==> 1 <= |Chunks(xs, size)[c]| <= size
    ensures forall c :: 0 <= c < |Chunks(xs, size)| - 1 ==> |Chunks(xs, size)[c]| == size
    decreases |xs|
  {
    if xs != [] {
      var e := if size < |xs| then size else |xs|;
      var rest := Chunks(xs[e..], size);
      ChunksSizes(xs[e..], size);
      var r := Chunks(xs, size);
      assert r == [xs[..e]] + rest;
      forall c | 1 <= c < |r|
        ensures r[c] == rest[c - 1]
      {
      }
      if e == |xs| {
        assert xs[e..] == [];
      }
    }
  }

  /** The chunk starting at `off`, then the chunks after it. */
  lemma ChunksStep(xs: seq<string>, size: int, off: nat)
    requires size >= 1 && off < |xs|
    ensures var e := if off + size < |xs| then off + size else |xs|;
      Chunks(xs[off..], size) == [xs[off..e]] + Chunks(xs[e..], size)
  {
    var e := if off + size < |xs| then off + size else |xs|;
    assert xs[off..][..e - off] == xs[off..e];
    assert xs[off..][e - off..] == xs[e..];
  }

  lemma DistinctSlice(xs: seq<string>, a: nat, b: nat)
    requires Distinct(xs) && a <= b <= |xs|
    ensures Distinct(xs[a..b])
    ensures forall k :: 0 <= k < a ==> xs[k] !in xs[a..b]
    ensures forall k :: b <= k < |xs| ==> xs[k] !in xs[a..b]
  {
    forall k | 0 <= k < |xs| && (k < a || b <= k)
      ensures xs[k] !in xs[a..b]
    {
      forall i | 0 <= i < b - a
        ensures xs[a..b][i] != xs[k]
      {
        assert xs[a..b][i] == xs[a + i];
      }
    }
  }

  /**
   * The answers `_retry_call` gets for `n` successive batch requests, and the
   * replies still to come afterwards.
   */
  function Chain<T>(script: seq<Reply<T>>, n: nat, maxAttempts: int): (r: (seq<Option<T>>, seq<Reply<T>>))
    ensures |r.0| == n
  {
    if n == 0 then ([], script)
    else
      var prev := Chain(script, n - 1, maxAttempts);
      var o := Retry(prev.1, maxAttempts);
      (prev.0 + [o.result], Drop(prev.1, o.calls))
  }

  /** The batch requests `n` successive `_retry_call`s send, one chunk after the other. */
  function BatchLog(script: seq<Reply<seq<string>>>, chunks: seq<seq<string>>, lang: string, maxAttempts: int)
    : seq<BatchRequest>
  {
    if chunks == [] then []
    else
      var n := |chunks| - 1;
      BatchLog(script, chunks[..n], lang, maxAttempts)
        + Repeat((chunks[n], lang), Retry(Chain(script, n, maxAttempts).1, maxAttempts).calls)
  }

  /** A non-empty `b` is its front and its last element. */
  lemma SnocSplit<T>(a: seq<T>, b: seq<T>)
    requires b != []
    ensures a + b == (a + b[..|b| - 1]) + [b[|b| - 1]] && b == b[..|b| - 1] + [b[|b| - 1]]
  {
  }

  /** `s` cut after its `k`-th element, and that prefix as the first `k` elements and the `k`-th. */
  lemma SplitAt<T>(s: seq<T>, k: nat)
    requires k < |s|
    ensures s[..k + 1] + s[k + 1..] == s && s[..k] + [s[k]] == s[..k + 1]
  {
  }

  /** A non-empty sequence is its front and its last element. */
  lemma LastSplit<T>(s: seq<T>)
    requires s != []
    ensures s[..|s| - 1] + [s[|s| - 1]] == s
    ensures forall k :: 0 <= k < |s| - 1 ==> s[..|s| - 1][k] == s[k]
  {
  }

  /** `r` is the result the `k`-th of a run of `translate` calls gave for `t`, for some `k`. */
  ghost predicate SingleAnswer(t: string, r: string, asked: seq<string>, singles: seq<string>) {
    exists k :: 0 <= k < |asked| && k < |singles| && asked[k] == t && singles[k] == r
  }

  /** Later calls, or earlier ones, do not take an answer away. */
  lemma SingleAnswerWithin(t: string, r: string, asked: seq<string>, singles: seq<string>,
                           pre: seq<string>, preS: seq<string>, post: seq<string>, postS: seq<string>)
    requires SingleAnswer(t, r, asked, singles) && |pre| == |preS| && |asked| == |singles|
    ensures SingleAnswer(t, r, pre + asked + post, preS + singles + postS)
  {
    var k :| 0 <= k < |asked| && k < |singles| && asked[k] == t && singles[k] == r;
    assert (pre + asked + post)[|pre| + k] == t && (preS + singles + postS)[|pre| + k] == r;
  }

  /** The run of `translate` calls holds, from call `at` on, one call per string of `chunk`, with results `vals`. */
  ghost predicate SegmentAt(chunk: seq<string>, vals: seq<string>, asked: seq<string>, singles: seq<string>, at: int) {
    && 0 <= at && at + |chunk| <= |asked| && at + |chunk| <= |singles|
    && asked[at..at + |chunk|] == chunk && singles[at..at + |chunk|] == vals
  }

  /** `vals` are the results of `translate` on the strings of `chunk`, called one after the other within the run. */
  ghost predicate FellBack(chunk: seq<string>, vals: seq<string>, asked: seq<string>, singles: seq<string>) {
    exists at :: SegmentAt(chunk, vals, asked, singles, at)
  }

  lemma FellBackWithin(chunk: seq<string>, vals: seq<string>, asked: seq<string>, singles: seq<string>,
                       pre: seq<string>, preS: seq<string>, post: seq<string>, postS: seq<string>)
    requires FellBack(chunk, vals, asked, singles) && |pre| == |preS| && |asked| == |singles|
    ensures FellBack(chunk, vals, pre + asked + post, preS + singles + postS)
  {
    var at :| SegmentAt(chunk, vals, asked, singles, at);
    var a', s' := pre + asked + post, preS + singles + postS;
    var e := at + |chunk|;
    assert a'[|pre| + at..|pre| + e] == asked[at..e];
    assert s'[|pre| + at..|pre| + e] == singles[at..e];
    assert SegmentAt(chunk, vals, a', s', |pre| + at);
  }

  class Translator {
    const strict: bool
    const maxAttempts: int
    const cacheFallbacks: bool
    const batchSize: int
    const complexLenThreshold: int
    const cache: TranslationCache
    /** `_request_single` */
    const single: Endpoint<SingleRequest, string>
    /** `_request_batch`, after `_coerce_json_array` (see `Provider.BatchReply`) */
    const batch: Endpoint<BatchRequest, seq<string>>

    ghost predicate Valid() {
      batchSize >= 1 && (single as object) != (batch as object)
    }

    /** `Translator(...)`: the settings, then the cache is loaded. */
    constructor (cache: TranslationCache, single: Endpoint<SingleRequest, string>,
                 batch: Endpoint<BatchRequest, seq<string>>, strict: bool, maxAttempts: int,
                 cacheFallbacks: bool, batchSize: int, complexLenThreshold: int)
      requires batchSize >= 1 && (single as object) != (batch as object)
      modifies cache
      ensures Valid()
      ensures this.cache == cache && this.single == single && this.batch == batch
      ensures this.strict == strict && this.maxAttempts == maxAttempts && this.cacheFallbacks == cacheFallbacks
      ensures this.batchSize == batchSize && this.complexLenThreshold == complexLenThreshold
      ensures cache.loaded && cache.disk == old(cache.disk)
      ensures cache.data == if old(cache.loaded) then old(cache.data) else FromDisk(cache.path, cache.disk, old(cache.data))
    {
      this.cache := cache;
      this.single := single;
      this.batch := batch;
      this.strict := strict;
      this.maxAttempts := maxAttempts;
      this.cacheFallbacks := cacheFallbacks;
      this.batchSize := batchSize;
      this.complexLenThreshold := complexLenThreshold;
      new;
      cache.Load();
    }

    /** Strings `translate_many` sends one by one: long, multi-line, chat JSON, or carrying colour codes. */
    predicate IsComplex(t: string) {
      |t| > complexLenThreshold || Contains(t, "\n") || Contains(t, "{\"text\"") || Contains(t, "§")
    }

    /** A string `translate_many` puts into a batch, given the cache it started with. */
    predicate Batched(t: string, c0: map<string, string>) {
      !PassThrough(t) && t !in c0 && !IsComplex(t)
    }

    /**
     * The placeholder check: in strict mode a candidate whose sorted tokens
     * differ from the source's is replaced by the source.
     */
    function Validated(src: string, cand: string): (out: string)
      ensures out == src || out == cand
      ensures SameTokens(src, cand) ==> out == cand
      ensures !strict ==> out == cand
      ensures strict ==> SameTokens(src, out)
    {
      if !SameTokens(src, cand) && strict then src else cand
    }

    /** Validating twice changes nothing. */
    lemma ValidatedIdempotent(src: string, cand: string)
      ensures Validated(src, Validated(src, cand)) == Validated(src, cand)
    {
    }

    /** Which results go into the cache: translations, and fallbacks when the setting asks for them. */
    predicate Stores(src: string, out: string) {
      out != src || cacheFallbacks
    }

    /** The cache after `put(srcs[k], outs[k])` for each `k` in order whose pair is stored. */
    function Record(d: map<string, string>, srcs: seq<string>, outs: seq<string>): map<string, string>
      requires |srcs| == |outs|
    {
      if srcs == [] then d
      else
        var n := |srcs| - 1;
        var prev := Record(d, srcs[..n], outs[..n]);
        if Stores(srcs[n], outs[n]) then prev[srcs[n] := outs[n]] else prev
    }

    /** For distinct sources, the recorded map answers each stored pair and leaves everything else as it was. */
    lemma {:induction false} RecordSpec(d: map<string, string>, srcs: seq<string>, outs: seq<string>)
      requires |srcs| == |outs| && Distinct(srcs)
      ensures var r := Record(d, srcs, outs);
        && (forall m :: 0 <= m < |srcs| && Stores(srcs[m], outs[m]) ==> srcs[m] in r && r[srcs[m]] == outs[m])
        && (forall m :: 0 <= m < |srcs| && !Stores(srcs[m], outs[m]) ==>
              (srcs[m] in r <==> srcs[m] in d) && (srcs[m] in d ==> r[srcs[m]] == d[srcs[m]]))
        && (forall k :: k !in srcs ==> (k in r <==> k in d) && (k in d ==> r[k] == d[k]))
    {
      if srcs != [] {
        var n := |srcs| - 1;
        var s', o' := srcs[..n], outs[..n];
        RecordSpec(d, s', o');
        var prev := Record(d, s', o');
        var r := Record(d, srcs, outs);
        var x, y := srcs[n], outs[n];
        assert r == if Stores(x, y) then prev[x := y] else prev;
        forall m | 0 <= m < n
          ensures srcs[m] == s'[m] && outs[m] == o'[m] && srcs[m] != x
        {
        }
        forall m | 0 <= m < |srcs| && Stores(srcs[m], outs[m])
          ensures srcs[m] in r && r[srcs[m]] == outs[m]
        {
        }
        forall m | 0 <= m < |srcs| && !Stores(srcs[m], outs[m])
          ensures (srcs[m] in r <==> srcs[m] in d) && (srcs[m] in d ==> r[srcs[m]] == d[srcs[m]])
        {
          if m == n {
            assert x !in s';
          }
        }
        forall k | k !in srcs
          ensures (k in r <==> k in d) && (k in d ==> r[k] == d[k])
        {
          assert k !in s' && k != x;
        }
      }
    }

    /** A key none of the pairs mentions is left as it was. */
    lemma {:induction false} RecordOther(d: map<string, string>, srcs: seq<string>, outs: seq<string>, k: string)
      requires |srcs| == |outs| && k !in srcs
      ensures k in Record(d, srcs, outs) <==> k in d
    {
      if srcs != [] {
        var n := |srcs| - 1;
        assert k !in srcs[..n];
        RecordOther(d, srcs[..n], outs[..n], k);
      }
    }

    /** Recording two runs one after the other is recording their concatenation. */
    lemma {:induction false} RecordAppend(d: map<string, string>, s1: seq<string>, o1: seq<string>, s2: seq<string>, o2: seq<string>)
      requires |s1| == |o1| && |s2| == |o2|
      ensures Record(d, s1 + s2, o1 + o2) == Record(Record(d, s1, o1), s2, o2)
    {
      if s2 != [] {
        var n := |s2| - 1;
        RecordAppend(d, s1, o1, s2[..n], o2[..n]);
        assert (s1 + s2)[..|s1| + n] == s1 + s2[..n];
        assert (o1 + o2)[..|o1| + n] == o1 + o2[..n];
      } else {
        assert s1 + s2 == s1 && o1 + o2 == o1;
      }
    }

    /**
     * The strings of `xs` that go into batches, each once, in the order of
     * their first occurrence (the keys of `uniq_map`).
     */
    function UniqueBatched(xs: seq<string>, c0: map<string, string>): (u: seq<string>)
    {
      if xs == [] then []
      else
        var prev := UniqueBatched(xs[..|xs| - 1], c0);
        var t := xs[|xs| - 1];
        if Batched(t, c0) && t !in prev then prev + [t] else prev
    }

    lemma {:induction false} UniqueBatchedSpec(xs: seq<string>, c0: map<string, string>)
      ensures Distinct(UniqueBatched(xs, c0))
      ensures forall u :: u in UniqueBatched(xs, c0) <==> u in xs && Batched(u, c0)
    {
      if xs != [] {
        var n := |xs| - 1;
        UniqueBatchedSpec(xs[..n], c0);
        assert xs == xs[..n] + [xs[n]];
      }
    }

    /**
     * One `translate` call on `t` that reaches the provider, after the
     * results `p.0`, with the replies `p.1` still to come: the retried reply,
     * or `t` itself when none comes, validated, is appended.
     */
    function Call(p: (seq<string>, seq<Reply<string>>), t: string): (seq<string>, seq<Reply<string>>) {
      (p.0 + [CallResult(p.1, t)], Drop(p.1, Retry(p.1, maxAttempts).calls))
    }

    /** What one call on `t` returns with the replies `script` to come: the retried reply or `t`, validated. */
    function CallResult(script: seq<Reply<string>>, t: string): string {
      Validated(t, Retry(script, maxAttempts).result.GetOr(t))
    }

    /**
     * The results of `translate` called on each string of `asked` in turn,
     * every call reaching the provider, and the replies still to come afterwards.
     */
    function SingleRun(script: seq<Reply<string>>, asked: seq<string>): (r: (seq<string>, seq<Reply<string>>))
      ensures |r.0| == |asked|
    {
      if asked == [] then ([], script)
      else Call(SingleRun(script, asked[..|asked| - 1]), asked[|asked| - 1])
    }

    /** The requests one call on `t` sends with the replies `p.1` to come: `t`, once per attempt. */
    function Sends(p: (seq<string>, seq<Reply<string>>), t: string, lang: string): seq<SingleRequest> {
      Repeat((t, lang), Retry(p.1, maxAttempts).calls)
    }

    /** The requests a run of calls sends. */
    function SingleSent(script: seq<Reply<string>>, asked: seq<string>, lang: string): seq<SingleRequest> {
      if asked == [] then []
      else
        var n := |asked| - 1;
        SingleSent(script, asked[..n], lang) + Sends(SingleRun(script, asked[..n]), asked[n], lang)
    }

    /** One more call at the end of a run. */
    lemma SingleRunSnoc(script: seq<Reply<string>>, asked: seq<string>, t: string, lang: string)
      ensures SingleRun(script, asked + [t]) == Call(SingleRun(script, asked), t)
      ensures SingleSent(script, asked + [t], lang) ==
        SingleSent(script, asked, lang) + Sends(SingleRun(script, asked), t, lang)
    {
      assert (asked + [t])[..|asked|] == asked;
    }

    /** A run of calls and its requests, one call further on: the state `translate` leaves behind. */
    lemma SingleRunStep(S: seq<Reply<string>>, asked: seq<string>, t: string, lang: string, s0: seq<SingleRequest>,
                        got: seq<string>, script: seq<Reply<string>>, sent: seq<SingleRequest>,
                        o: string, script': seq<Reply<string>>, sent': seq<SingleRequest>)
      requires (got, script) == SingleRun(S, asked) && sent == s0 + SingleSent(S, asked, lang)
      requires o == Validated(t, Retry(script, maxAttempts).result.GetOr(t))
      requires script' == Drop(script, Retry(script, maxAttempts).calls)
      requires sent' == sent + Repeat((t, lang), Retry(script, maxAttempts).calls)
      ensures (got + [o], script') == SingleRun(S, asked + [t])
      ensures sent' == s0 + SingleSent(S, asked + [t], lang)
    {
      SingleRunSnoc(S, asked, t, lang);
      AppendAssoc(s0, SingleSent(S, asked, lang), Sends(SingleRun(S, asked), t, lang));
    }

    /** Earlier results do not change what a call adds. */
    lemma CallShift(q: seq<string>, p: (seq<string>, seq<Reply<string>>), t: string)
      ensures Call((q + p.0, p.1), t) == (q + Call(p, t).0, Call(p, t).1)
    {
      var o := Retry(p.1, maxAttempts);
      var v := Validated(t, o.result.GetOr(t));
      assert (q + p.0) + [v] == q + (p.0 + [v]);
    }

    /** A run of calls is the first part of the run followed by the rest, started from the replies the first part left. */
    lemma {:induction false} SingleRunAppend(script: seq<Reply<string>>, a: seq<string>, b: seq<string>)
      ensures SingleRun(script, a + b) == (SingleRun(script, a).0 + SingleRun(SingleRun(script, a).1, b).0,
                                           SingleRun(SingleRun(script, a).1, b).1)
    {
      if b == [] {
        assert a + b == a && SingleRun(script, a).0 + [] == SingleRun(script, a).0;
      } else {
        var b', t := b[..|b| - 1], b[|b| - 1];
        SingleRunAppend(script, a, b');
        SnocSplit(a, b);
        var m := SingleRun(script, a);
        SingleRunSnoc(script, a + b', t, "");
        SingleRunSnoc(m.1, b', t, "");
        CallShift(m.0, SingleRun(m.1, b'), t);
      }
    }

    /**
     * The `k`-th result of a run is the `k`-th string's retried reply (or the
     * string itself when none came), validated, where the retries start from
     * the replies the first `k` calls left.
     */
    lemma SingleRunAt(script: seq<Reply<string>>, asked: seq<string>, k: nat)
      requires k < |asked|
      ensures SingleRun(script, asked).0[k] == CallResult(SingleRun(script, asked[..k]).1, asked[k])
    {
      SplitAt(asked, k);
      SingleRunAppend(script, asked[..k + 1], asked[k + 1..]);
      SingleRunLast(script, asked[..k], asked[k]);
    }

    /** The results of a run with one more call: those before, then the last call's result. */
    lemma SingleRunLast(script: seq<Reply<string>>, front: seq<string>, t: string)
      ensures SingleRun(script, front + [t]).0 ==
        SingleRun(script, front).0 + [CallResult(SingleRun(script, front).1, t)]
    {
      assert (front + [t])[..|front|] == front;
    }

    /** With at least one attempt allowed, every string of a run is requested. */
    lemma {:induction false} SingleSentRequests(script: seq<Reply<string>>, asked: seq<string>, lang: string)
      requires maxAttempts >= 1
      ensures forall k :: 0 <= k < |asked| ==> (asked[k], lang) in SingleSent(script, asked, lang)
    {
      if asked != [] {
        var front, t := asked[..|asked| - 1], asked[|asked| - 1];
        LastSplit(asked);
        SingleRunSnoc(script, front, t, lang);
        var before, last := SingleSent(script, front, lang), Sends(SingleRun(script, front), t, lang);
        assert SingleSent(script, asked, lang) == before + last;
        SingleSentRequests(script, front, lang);
        RetryCallsPositive(SingleRun(script, front).1, maxAttempts);
        assert last[0] == (t, lang);
        forall k | 0 <= k < |asked|
          ensures (asked[k], lang) in before + last
        {
          if k < |front| {
            assert (front[k], lang) in before;
          }
        }
      }
    }

    /** The requests of a run are those of its first part followed by those of the rest. */
    lemma {:induction false} SingleSentAppend(script: seq<Reply<string>>, a: seq<string>, b: seq<string>, lang: string)
      ensures SingleSent(script, a + b, lang) == SingleSent(script, a, lang) + SingleSent(SingleRun(script, a).1, b, lang)
    {
      if b != [] {
        var b', t := b[..|b| - 1], b[|b| - 1];
        var m := SingleRun(script, a);
        SingleSentAppend(script, a, b', lang);
        SingleRunAppend(script, a, b');
        SnocSplit(a, b);
        SingleRunSnoc(script, a + b', t, lang);
        SingleRunSnoc(m.1, b', t, lang);
        AppendAssoc(SingleSent(script, a, lang), SingleSent(m.1, b', lang), Sends(SingleRun(m.1, b'), t, lang));
      } else {
        assert a + b == a;
      }
    }

    /** `_retry_call(func)` with `func` one request `q` to `ep`. */
    method RetryCall<Q, T>(ep: Endpoint<Q, T>, q: Q) returns (r: Option<T>, ghost calls: nat)
      modifies ep
      ensures Retry(old(ep.script), maxAttempts) == Outcome(r, calls)
      ensures ep.script == Drop(old(ep.script), calls)
      ensures ep.sent == old(ep.sent) + Repeat(q, calls)
    {
      ghost var s0 := ep.script;
      var attempts := 0;
      while attempts < maxAttempts
        invariant Retry(s0, maxAttempts) == RetryFrom(s0, attempts, maxAttempts)
        invariant ep.script == Drop(s0, attempts)
        invariant ep.sent == old(ep.sent) + Repeat(q, attempts)
        decreases maxAttempts - attempts
      {
        attempts := attempts + 1;
        var reply := ep.Request(q);
        assert Repeat(q, attempts) == Repeat(q, attempts - 1) + [q];
        assert ReplyAt(s0, attempts - 1) == reply;
        match reply {
          case Ok(v) =>
            return Some(v), attempts;
          case Failed(_, _) =>
            if !IsTransient(reply) {
              break;
            }
        }
      }
      return None, attempts;
    }

    /**
     * `translate(text)`: pass-through strings come back as they are, cached
     * ones from the cache; anything else is requested (with retries), falls
     * back to the source when no answer comes, is validated, and is put into
     * the cache (and the cache file written) when `Stores` says so.
     */
    method Translate(text: string, lang: string) returns (out: string)
      requires Valid()
      modifies cache, single
      ensures batch.script == old(batch.script) && batch.sent == old(batch.sent)
      ensures cache.loaded == old(cache.loaded)
      ensures PassThrough(text) ==> out == text
      ensures !PassThrough(text) && text in old(cache.data) ==> out == old(cache.data)[text]
      ensures PassThrough(text) || text in old(cache.data) ==>
        && cache.data == old(cache.data) && cache.disk == old(cache.disk)
        && single.script == old(single.script) && single.sent == old(single.sent)
      ensures !PassThrough(text) && text !in old(cache.data) ==>
        var o := Retry(old(single.script), maxAttempts);
        && out == Validated(text, o.result.GetOr(text))
        && single.script == Drop(old(single.script), o.calls)
        && single.sent == old(single.sent) + Repeat((text, lang), o.calls)
        && cache.data == (if Stores(text, out) then old(cache.data)[text := out] else old(cache.data))
        && cache.disk == (if Stores(text, out) && cache.path != "" then Stored(cache.data) else old(cache.disk))
      ensures strict && !PassThrough(text) && text !in old(cache.data) ==> SameTokens(text, out)
    {
      if text == "" {
        return text;
      }
      if LooksRussianOnly(text) {
        return text;
      }
      if !HasLatin(text) {
        return text;
      }
      var cached := cache.Get(text);
      if cached.Some? {
        return cached.value;
      }
      var r, calls := RetryCall(single, (text, lang));
      out := r.GetOr(text);
      out := Validated(text, out);
      if Stores(text, out) {
        cache.Put(text, out);
        cache.Save();
      }
    }

    // ---------- translate_many ----------

    /** What the first pass of `translate_many` leaves at one position, given the cache it started with. */
    ghost predicate ClassifiedAt(t: string, r: Option<string>, c0: map<string, string>) {
      && (PassThrough(t) ==> r == Some(t))
      && (!PassThrough(t) && t in c0 ==> r == Some(c0[t]))
      && (r.None? <==> Batched(t, c0))
      && (strict && !PassThrough(t) && t !in c0 && r.Some? ==> SameTokens(t, r.value))
    }

    /** `uniq_map`: each batched string maps to exactly the positions where it still waits for a result. */
    ghost predicate Positioned(texts: seq<string>, results: seq<Option<string>>, order: seq<string>,
                               positions: map<string, seq<nat>>)
    {
      && (forall u :: u in positions <==> u in order)
      && (forall u, q :: u in positions && 0 <= q < |positions[u]| ==>
            var p := positions[u][q]; p < |results| && p < |texts| && texts[p] == u && results[p].None?)
      && (forall i :: 0 <= i < |results| && i < |texts| && results[i].None? ==> texts[i] in positions && i in positions[texts[i]])
    }

    /** The cache keeps what it started with; a new key is a source string that needed the provider, with a result `Stores` accepts. */
    ghost predicate Grown(c0: map<string, string>, d: map<string, string>, texts: seq<string>) {
      && (forall k :: k in c0 ==> k in d && d[k] == c0[k])
      && (forall k :: k in d && k !in c0 ==>
            k in texts && !PassThrough(k) && IsComplex(k) && Stores(k, d[k])
            && (strict ==> SameTokens(k, d[k])))
    }

    /** The single-string requests made since `s0` all ask for some of `texts` in `lang`. */
    ghost predicate SingleLog(s0: seq<SingleRequest>, s: seq<SingleRequest>, texts: seq<string>, lang: string) {
      && |s0| <= |s| && s[..|s0|] == s0
      && forall k :: |s0| <= k < |s| ==> s[k].1 == lang && s[k].0 in texts
    }

    lemma SingleLogExtend(s0: seq<SingleRequest>, s: seq<SingleRequest>, texts: seq<string>, more: seq<string>,
                          lang: string, t: string, n: nat)
      requires SingleLog(s0, s, texts, lang)
      requires forall x :: x in texts ==> x in more
      requires t in more
      ensures SingleLog(s0, s + Repeat((t, lang), n), more, lang)
    {
      var s' := s + Repeat((t, lang), n);
      assert s'[..|s0|] == s[..|s0|];
      forall k | |s0| <= k < |s'|
        ensures s'[k].1 == lang && s'[k].0 in more
      {
        if k >= |s| {
          assert s'[k] == (t, lang);
        }
      }
    }

    lemma PositionedKeep(texts: seq<string>, results: seq<Option<string>>, order: seq<string>,
                         positions: map<string, seq<nat>>, r: Option<string>)
      requires Positioned(texts, results, order, positions) && r.Some?
      ensures Positioned(texts, results + [r], order, positions)
    {
      var res := results + [r];
      assert forall p :: 0 <= p < |results| ==> res[p] == results[p];
    }

    lemma PositionedAdd(texts: seq<string>, results: seq<Option<string>>, order: seq<string>,
                        positions: map<string, seq<nat>>)
      requires Positioned(texts, results, order, positions) && |results| < |texts|
      ensures var i, t := |results|, texts[|results|];
        var old' := if t in positions then positions[t] else [];
        var order' := if t in positions then order else order + [t];
        Positioned(texts, results + [None], order', positions[t := old' + [i]])
    {
      var i, t := |results|, texts[|results|];
      var res := results + [None];
      assert forall p :: 0 <= p < |results| ==> res[p] == results[p];
    }

    lemma ClassifiedAppend(texts: seq<string>, results: seq<Option<string>>, r: Option<string>, c0: map<string, string>)
      requires |results| < |texts|
      requires forall k :: 0 <= k < |results| ==> ClassifiedAt(texts[k], results[k], c0)
      requires ClassifiedAt(texts[|results|], r, c0)
      ensures forall k :: 0 <= k < |results| + 1 ==> ClassifiedAt(texts[k], (results + [r])[k], c0)
    {
      assert forall k :: 0 <= k < |results| ==> (results + [r])[k] == results[k];
    }

    lemma GrownPut(c0: map<string, string>, d: map<string, string>, texts: seq<string>, t: string, o: string)
      requires Grown(c0, d, texts) && t in texts && t !in d
      requires !PassThrough(t) && IsComplex(t) && Stores(t, o)
      requires strict ==> SameTokens(t, o)
      ensures Grown(c0, d[t := o], texts)
    {
    }

    /** Requests for `t`, which was neither passed through nor cached at the start, keep the log fresh. */
    lemma FreshLogExtend(s0: seq<SingleRequest>, s: seq<SingleRequest>, c0: map<string, string>, t: string, lang: string, n: nat)
      requires |s0| <= |s|
      requires forall k :: |s0| <= k < |s| ==> !PassThrough(s[k].0) && s[k].0 !in c0
      requires !PassThrough(t) && t !in c0
      ensures var s' := s + Repeat((t, lang), n);
        forall k :: |s0| <= k < |s'| ==> !PassThrough(s'[k].0) && s'[k].0 !in c0
    {
      var s' := s + Repeat((t, lang), n);
      forall k | |s0| <= k < |s'|
        ensures !PassThrough(s'[k].0) && s'[k].0 !in c0
      {
        if k >= |s| {
          assert s'[k] == (t, lang);
        }
      }
    }

    /** What the first pass of `translate_many` has computed after `i` strings. */
    ghost predicate ClassifyState(texts: seq<string>, i: int, results: seq<Option<string>>,
                                  order: seq<string>, positions: map<string, seq<nat>>, c0: map<string, string>)
    {
      && 0 <= i <= |texts| && |results| == i
      && (forall k :: 0 <= k < i ==> ClassifiedAt(texts[k], results[k], c0))
      && order == UniqueBatched(texts[..i], c0)
      && Positioned(texts, results, order, positions)
    }

    /** What the first pass has done to the cache and to the single-string endpoint so far. */
    ghost predicate ClassifyEffects(texts: seq<string>, lang: string, c0: map<string, string>, s0: seq<SingleRequest>)
      reads cache, single
    {
      && Grown(c0, cache.data, texts)
      && SingleLog(s0, single.sent, texts, lang)
      && (forall k :: |s0| <= k < |single.sent| ==> !PassThrough(single.sent[k].0) && single.sent[k].0 !in c0)
    }

    /** A position answered during the first pass. */
    lemma StepAnswered(texts: seq<string>, i: nat, results: seq<Option<string>>, order: seq<string>,
                       positions: map<string, seq<nat>>, c0: map<string, string>, r: Option<string>)
      requires ClassifyState(texts, i, results, order, positions, c0) && i < |texts|
      requires r.Some? && ClassifiedAt(texts[i], r, c0)
      ensures ClassifyState(texts, i + 1, results + [r], order, positions, c0)
    {
      var t := texts[i];
      assert texts[..i + 1][..i] == texts[..i];
      ClassifiedAppend(texts, results, r, c0);
      PositionedKeep(texts, results, order, positions, r);
    }

    /** A position left for the batches. */
    lemma StepBatched(texts: seq<string>, i: nat, results: seq<Option<string>>, order: seq<string>,
                      positions: map<string, seq<nat>>, c0: map<string, string>)
      requires ClassifyState(texts, i, results, order, positions, c0) && i < |texts|
      requires Batched(texts[i], c0)
      ensures var t := texts[i];
        var old' := if t in positions then positions[t] else [];
        var order' := if t in positions then order else order + [t];
        ClassifyState(texts, i + 1, results + [None], order', positions[t := old' + [i]], c0)
    {
      var t := texts[i];
      assert texts[..i + 1][..i] == texts[..i];
      assert ClassifiedAt(t, None, c0);
      ClassifiedAppend(texts, results, None, c0);
      PositionedAdd(texts, results, order, positions);
    }

    /** A string the first pass sends on its own: neither passed through nor cached at the start, and complex. */
    predicate ComplexFresh(t: string, c0: map<string, string>) {
      !PassThrough(t) && t !in c0 && IsComplex(t)
    }

    /**
     * The single-string endpoint during the first pass, which started with
     * the replies `S0` and the log `s0`: the strings `asked` so far are one run
     * of `translate` calls, each on a complex string of `texts` that was not
     * cached at the start, and every entry the pass added to the cache is the
     * result of one of those calls.
     */
    ghost predicate ClassifySingles(texts: seq<string>, lang: string, c0: map<string, string>, s0: seq<SingleRequest>,
                                    S0: seq<Reply<string>>, asked: seq<string>)
      reads cache, single
    {
      RunState(texts, lang, c0, s0, S0, asked, cache.data, single.script, single.sent)
    }

    /** `ClassifySingles` over a given cache map `d`, replies `script` and log `sent`. */
    ghost predicate RunState(texts: seq<string>, lang: string, c0: map<string, string>, s0: seq<SingleRequest>,
                             S0: seq<Reply<string>>, asked: seq<string>,
                             d: map<string, string>, script: seq<Reply<string>>, sent: seq<SingleRequest>)
    {
      && SingleRun(S0, asked).1 == script
      && sent == s0 + SingleSent(S0, asked, lang)
      && (forall k :: 0 <= k < |asked| ==> asked[k] in texts && ComplexFresh(asked[k], c0))
      && (forall u :: u in d && u !in c0 ==> SingleAnswer(u, d[u], asked, SingleRun(S0, asked).0))
    }

    /** One complex string of the first pass translated: the run, the cache entries and the answers so far, one call further on. */
    lemma RunStateStep(texts: seq<string>, lang: string, c0: map<string, string>, s0: seq<SingleRequest>,
                       S0: seq<Reply<string>>, asked: seq<string>, results: seq<Option<string>>,
                       d: map<string, string>, script: seq<Reply<string>>, sent: seq<SingleRequest>,
                       o: string, d': map<string, string>, script': seq<Reply<string>>, sent': seq<SingleRequest>)
      requires RunState(texts, lang, c0, s0, S0, asked, d, script, sent)
      requires ComplexAnswered(texts, results, c0, asked, SingleRun(S0, asked).0)
      requires |results| < |texts| && ComplexFresh(texts[|results|], c0)
      requires var t := texts[|results|]; var r := Retry(script, maxAttempts);
        && o == Validated(t, r.result.GetOr(t))
        && script' == Drop(script, r.calls)
        && sent' == sent + Repeat((t, lang), r.calls)
        && (d' == d[t := o] || d' == d)
      ensures var asked' := asked + [texts[|results|]];
        && RunState(texts, lang, c0, s0, S0, asked', d', script', sent')
        && ComplexAnswered(texts, results + [Some(o)], c0, asked', SingleRun(S0, asked').0)
        && SingleRun(S0, asked').0 == SingleRun(S0, asked).0 + [o]
    {
      var t := texts[|results|];
      var asked', singles := asked + [t], SingleRun(S0, asked).0;
      SingleRunStep(S0, asked, t, lang, s0, singles, script, sent, o, script', sent');
      CacheAnswersStep(d, d', c0, t, o, asked, singles);
      assert forall k :: 0 <= k < |asked| ==> asked'[k] == asked[k];
      ComplexAnsweredGrow(texts, results, c0, asked, singles, [t], [o]);
      assert SingleAnswer(t, o, asked', singles + [o]) by {
        assert asked'[|asked|] == t && (singles + [o])[|asked|] == o;
      }
      ComplexAnsweredStep(texts, results, c0, asked', singles + [o], Some(o));
    }

    /** Each complex string not cached at the start has as its result the result of one call of the run. */
    ghost predicate ComplexAnswered(texts: seq<string>, results: seq<Option<string>>, c0: map<string, string>,
                                    asked: seq<string>, singles: seq<string>)
    {
      forall k :: 0 <= k < |results| && k < |texts| && ComplexFresh(texts[k], c0) ==>
        results[k].Some? && SingleAnswer(texts[k], results[k].value, asked, singles)
    }

    /** The answers so far stay answers when the run goes on. */
    lemma ComplexAnsweredGrow(texts: seq<string>, results: seq<Option<string>>, c0: map<string, string>,
                              asked: seq<string>, singles: seq<string>, more: seq<string>, moreS: seq<string>)
      requires ComplexAnswered(texts, results, c0, asked, singles) && |asked| == |singles|
      ensures ComplexAnswered(texts, results, c0, asked + more, singles + moreS)
    {
      assert [] + asked + more == asked + more && [] + singles + moreS == singles + moreS;
      forall k | 0 <= k < |results| && k < |texts| && ComplexFresh(texts[k], c0)
        ensures SingleAnswer(texts[k], results[k].value, asked + more, singles + moreS)
      {
        SingleAnswerWithin(texts[k], results[k].value, asked, singles, [], [], more, moreS);
      }
    }

    /** One more position, answered by the run when it is a complex string not cached at the start. */
    lemma ComplexAnsweredStep(texts: seq<string>, results: seq<Option<string>>, c0: map<string, string>,
                              asked: seq<string>, singles: seq<string>, r: Option<string>)
      requires ComplexAnswered(texts, results, c0, asked, singles) && |results| < |texts|
      requires ComplexFresh(texts[|results|], c0) ==> r.Some? && SingleAnswer(texts[|results|], r.value, asked, singles)
      ensures ComplexAnswered(texts, results + [r], c0, asked, singles)
    {
      assert forall k :: 0 <= k < |results| ==> (results + [r])[k] == results[k];
    }

    /** The cache entries added by the first pass after one more call, whose result `o` may have been put. */
    lemma CacheAnswersStep(d: map<string, string>, d': map<string, string>, c0: map<string, string>,
                           t: string, o: string, asked: seq<string>, singles: seq<string>)
      requires forall u :: u in d && u !in c0 ==> SingleAnswer(u, d[u], asked, singles)
      requires |asked| == |singles|
      requires d' == d[t := o] || d' == d
      ensures forall u :: u in d' && u !in c0 ==> SingleAnswer(u, d'[u], asked + [t], singles + [o])
    {
      assert (asked + [t])[|asked|] == t && (singles + [o])[|asked|] == o;
      forall u | u in d' && u !in c0
        ensures SingleAnswer(u, d'[u], asked + [t], singles + [o])
      {
        if u == t && d' == d[t := o] {
        } else {
          SingleAnswerWithin(u, d[u], asked, singles, [], [], [t], [o]);
          assert [] + asked + [t] == asked + [t] && [] + singles + [o] == singles + [o];
        }
      }
    }

    /** The cache file holds nothing newer than the map, or was not touched. */
    ghost predicate DiskCurrent(disk0: Disk)
      reads cache
    {
      cache.disk == disk0 || (cache.path != "" && cache.disk == Stored(cache.data))
    }

    /** A complex string of the first pass, neither passed through nor cached: translated on its own. */
    method ClassifyComplex(texts: seq<string>, lang: string, i: nat,
                           ghost c0: map<string, string>, ghost s0: seq<SingleRequest>, ghost disk0: Disk,
                           ghost S0: seq<Reply<string>>, ghost asked: seq<string>, ghost results: seq<Option<string>>)
      returns (o: string, ghost asked': seq<string>)
      requires Valid() && i < |texts| && |results| == i
      requires !PassThrough(texts[i]) && IsComplex(texts[i]) && texts[i] !in cache.data
      requires ClassifyEffects(texts, lang, c0, s0) && DiskCurrent(disk0)
      requires ClassifySingles(texts, lang, c0, s0, S0, asked)
      requires ComplexAnswered(texts, results, c0, asked, SingleRun(S0, asked).0)
      modifies cache, single
      ensures ClassifyEffects(texts, lang, c0, s0) && DiskCurrent(disk0)
      ensures ClassifySingles(texts, lang, c0, s0, S0, asked')
      ensures ComplexAnswered(texts, results + [Some(o)], c0, asked', SingleRun(S0, asked').0)
      ensures asked' == asked + [texts[i]] && SingleRun(S0, asked').0 == SingleRun(S0, asked).0 + [o]
      ensures ClassifiedAt(texts[i], Some(o), c0)
      ensures batch.script == old(batch.script) && batch.sent == old(batch.sent)
      ensures cache.loaded == old(cache.loaded)
    {
      var t := texts[i];
      ghost var sBefore, scr, d := single.sent, single.script, cache.data;
      o := Translate(t, lang);
      ghost var n := Retry(scr, maxAttempts).calls;
      SingleLogExtend(s0, sBefore, texts, texts, lang, t, n);
      FreshLogExtend(s0, sBefore, c0, t, lang, n);
      if Stores(t, o) {
        GrownPut(c0, d, texts, t, o);
      }
      asked' := asked + [t];
      RunStateStep(texts, lang, c0, s0, S0, asked, results, d, scr, sBefore, o, cache.data, single.script, single.sent);
    }

    /** One iteration of the first pass: the string at position `i`. */
    method ClassifyOne(texts: seq<string>, lang: string, i: nat, results: seq<Option<string>>,
                       order: seq<string>, positions: map<string, seq<nat>>,
                       ghost c0: map<string, string>, ghost s0: seq<SingleRequest>, ghost disk0: Disk,
                       ghost S0: seq<Reply<string>>, ghost asked: seq<string>)
      returns (results': seq<Option<string>>, order': seq<string>, positions': map<string, seq<nat>>,
               ghost asked': seq<string>)
      requires Valid() && i < |texts|
      requires ClassifyState(texts, i, results, order, positions, c0)
      requires ClassifyEffects(texts, lang, c0, s0) && DiskCurrent(disk0)
      requires ClassifySingles(texts, lang, c0, s0, S0, asked)
      requires ComplexAnswered(texts, results, c0, asked, SingleRun(S0, asked).0)
      modifies cache, single
      ensures ClassifyState(texts, i + 1, results', order', positions', c0)
      ensures ClassifyEffects(texts, lang, c0, s0) && DiskCurrent(disk0)
      ensures ClassifySingles(texts, lang, c0, s0, S0, asked')
      ensures ComplexAnswered(texts, results', c0, asked', SingleRun(S0, asked').0)
      ensures asked' == if ComplexFresh(texts[i], old(cache.data)) then asked + [texts[i]] else asked
      ensures batch.script == old(batch.script) && batch.sent == old(batch.sent)
      ensures cache.loaded == old(cache.loaded)
    {
      var t := texts[i];
      order', positions', asked' := order, positions, asked;
      ghost var singles := SingleRun(S0, asked).0;
      var c := if t == "" || LooksRussianOnly(t) || !HasLatin(t) then Some(t) else cache.Get(t);
      if c.Some? {
        StepAnswered(texts, i, results, order, positions, c0, c);
        ComplexAnsweredStep(texts, results, c0, asked, singles, c);
        results' := results + [c];
      } else if IsComplex(t) {
        var o;
        o, asked' := ClassifyComplex(texts, lang, i, c0, s0, disk0, S0, asked, results);
        StepAnswered(texts, i, results, order, positions, c0, Some(o));
        results' := results + [Some(o)];
      } else {
        ComplexAnsweredStep(texts, results, c0, asked, singles, None);
        results', order', positions' := ClassifyBatched(texts, i, results, order, positions, c0);
      }
    }

    /** A string left for the batches: its position is added to `uniq_map`, its key first when it is new. */
    method ClassifyBatched(texts: seq<string>, i: nat, results: seq<Option<string>>,
                           order: seq<string>, positions: map<string, seq<nat>>, ghost c0: map<string, string>)
      returns (results': seq<Option<string>>, order': seq<string>, positions': map<string, seq<nat>>)
      requires ClassifyState(texts, i, results, order, positions, c0) && i < |texts|
      requires Batched(texts[i], c0)
      ensures results' == results + [None]
      ensures ClassifyState(texts, i + 1, results', order', positions', c0)
    {
      var t := texts[i];
      StepBatched(texts, i, results, order, positions, c0);
      order', positions' := order, positions;
      if t !in positions' {
        positions' := positions'[t := []];
        order' := order' + [t];
      }
      positions' := positions'[t := positions'[t] + [i]];
      results' := results + [None];
    }

    /**
     * The first pass of `translate_many`: pass-through strings and cache hits
     * are answered, complex strings are translated one by one, and the rest
     * are collected in `uniq_map` (`order` lists its keys in insertion order).
     */
    method Classify(texts: seq<string>, lang: string)
      returns (results: seq<Option<string>>, order: seq<string>, positions: map<string, seq<nat>>, ghost asked: seq<string>)
      requires Valid()
      modifies cache, single
      ensures batch.script == old(batch.script) && batch.sent == old(batch.sent)
      ensures cache.loaded == old(cache.loaded)
      ensures ClassifyState(texts, |texts|, results, order, positions, old(cache.data))
      ensures ClassifyEffects(texts, lang, old(cache.data), old(single.sent))
      ensures order == UniqueBatched(texts, old(cache.data))
      ensures DiskCurrent(old(cache.disk))
      ensures ClassifySingles(texts, lang, old(cache.data), old(single.sent), old(single.script), asked)
      ensures ComplexAnswered(texts, results, old(cache.data), asked, SingleRun(old(single.script), asked).0)
      ensures maxAttempts >= 1 ==> forall i :: 0 <= i < |texts| && ComplexFresh(texts[i], old(cache.data)) ==>
        (texts[i], lang) in single.sent[|old(single.sent)|..]
    {
      ghost var c0, s0, S0, disk0 := cache.data, single.sent, single.script, cache.disk;
      results := [];
      order := [];
      positions := map[];
      asked := [];
      ClassifyStart(texts, lang, c0, s0, S0);
      var i := 0;
      while i < |texts|
        invariant ClassifyState(texts, i, results, order, positions, c0)
        invariant ClassifyEffects(texts, lang, c0, s0) && DiskCurrent(disk0)
        invariant ClassifySingles(texts, lang, c0, s0, S0, asked)
        invariant ComplexAnswered(texts, results, c0, asked, SingleRun(S0, asked).0)
        invariant batch.script == old(batch.script) && batch.sent == old(batch.sent)
        invariant cache.loaded == old(cache.loaded)
      {
        results, order, positions, asked := ClassifyOne(texts, lang, i, results, order, positions, c0, s0, disk0, S0, asked);
        i := i + 1;
      }
      ClassifyDone(texts, results, order, positions, c0);
      if maxAttempts >= 1 {
        ComplexRequested(texts, lang, results, c0, s0, S0, asked, single.sent);
      }
    }

    /** With at least one attempt allowed, the first pass requests every complex string not cached at the start. */
    lemma ComplexRequested(texts: seq<string>, lang: string, results: seq<Option<string>>, c0: map<string, string>,
                           s0: seq<SingleRequest>, S0: seq<Reply<string>>, asked: seq<string>, sent: seq<SingleRequest>)
      requires maxAttempts >= 1 && |results| == |texts|
      requires ComplexAnswered(texts, results, c0, asked, SingleRun(S0, asked).0)
      requires sent == s0 + SingleSent(S0, asked, lang)
      ensures forall i :: 0 <= i < |texts| && ComplexFresh(texts[i], c0) ==> (texts[i], lang) in sent[|s0|..]
    {
      SingleSentRequests(S0, asked, lang);
      assert sent[|s0|..] == SingleSent(S0, asked, lang);
      forall i | 0 <= i < |texts| && ComplexFresh(texts[i], c0)
        ensures (texts[i], lang) in sent[|s0|..]
      {
        var k :| 0 <= k < |asked| && k < |SingleRun(S0, asked).0| && asked[k] == texts[i]
          && SingleRun(S0, asked).0[k] == results[i].value;
      }
    }

    /** Before the first pass: nothing answered, queued, asked or logged yet. */
    lemma ClassifyStart(texts: seq<string>, lang: string, c0: map<string, string>, s0: seq<SingleRequest>,
                        S0: seq<Reply<string>>)
      ensures ClassifyState(texts, 0, [], [], map[], c0)
      ensures Grown(c0, c0, texts) && SingleLog(s0, s0, texts, lang)
      ensures RunState(texts, lang, c0, s0, S0, [], c0, S0, s0)
      ensures ComplexAnswered(texts, [], c0, [], SingleRun(S0, []).0)
    {
      assert texts[..0] == [];
      assert s0 + [] == s0 && s0[..|s0|] == s0;
    }

    /** After the first pass: the queue is `UniqueBatched` of all the inputs. */
    lemma ClassifyDone(texts: seq<string>, results: seq<Option<string>>, order: seq<string>,
                       positions: map<string, seq<nat>>, c0: map<string, string>)
      requires ClassifyState(texts, |texts|, results, order, positions, c0)
      ensures order == UniqueBatched(texts, c0)
    {
      assert texts[..|texts|] == texts;
    }

    /** `(u, lang)` was requested after the first `from` entries of the log. */
    ghost predicate Requested(s: seq<SingleRequest>, from: int, u: string, lang: string) {
      exists k :: 0 <= from <= k < |s| && s[k] == (u, lang)
    }

    lemma RequestedExtend(s: seq<SingleRequest>, from: int, done: seq<string>, t: string, lang: string, n: nat)
      requires 0 <= from <= |s|
      requires forall u :: u in done ==> Requested(s, from, u, lang)
      requires n >= 1
      ensures forall u :: u in done + [t] ==> Requested(s + Repeat((t, lang), n), from, u, lang)
    {
      var s' := s + Repeat((t, lang), n);
      assert s'[|s|] == (t, lang);
      forall u | u in done + [t]
        ensures Requested(s', from, u, lang)
      {
        if u != t {
          assert u in done;
          var k :| 0 <= from <= k < |s| && s[k] == (u, lang);
          assert s'[k] == (u, lang);
        }
      }
    }

    lemma RecordSnoc(d: map<string, string>, srcs: seq<string>, outs: seq<string>, t: string, o: string)
      requires |srcs| == |outs|
      ensures Record(d, srcs + [t], outs + [o]) ==
        if Stores(t, o) then Record(d, srcs, outs)[t := o] else Record(d, srcs, outs)
    {
      assert (srcs + [t])[..|srcs|] == srcs;
      assert (outs + [o])[..|outs|] == outs;
    }

    /** What the fallback loop has established after the first `j` strings of the chunk. */
    ghost predicate SinglesInv(chunk: seq<string>, lang: string, j: int, got: seq<string>,
                               d0: map<string, string>, s0: seq<SingleRequest>, S: seq<Reply<string>>)
      reads cache, single
    {
      SinglesState(chunk, lang, j, got, d0, s0, S, cache.data, single.script, single.sent)
    }

    /** `SinglesInv` over a given cache map `d`, replies `script` and log `sent`. */
    ghost predicate SinglesState(chunk: seq<string>, lang: string, j: int, got: seq<string>,
                                 d0: map<string, string>, s0: seq<SingleRequest>, S: seq<Reply<string>>,
                                 d: map<string, string>, script: seq<Reply<string>>, sent: seq<SingleRequest>)
    {
      && 0 <= j <= |chunk| && |got| == j
      && (got, script) == SingleRun(S, chunk[..j])
      && sent == s0 + SingleSent(S, chunk[..j], lang)
      && (forall k :: 0 <= k < j ==> Validated(chunk[k], got[k]) == got[k])
      && (strict ==> forall k :: 0 <= k < j ==> SameTokens(chunk[k], got[k]))
      && d == Record(d0, chunk[..j], got)
      && SingleLog(s0, sent, chunk, lang)
      && (maxAttempts >= 1 ==> forall u :: u in chunk[..j] ==> Requested(sent, |s0|, u, lang))
    }

    /** One more string of a failed batch translated on its own: the fallback state, one call further on. */
    lemma SinglesStateStep(chunk: seq<string>, lang: string, j: nat, got: seq<string>,
                           d0: map<string, string>, s0: seq<SingleRequest>, S: seq<Reply<string>>,
                           d: map<string, string>, script: seq<Reply<string>>, sent: seq<SingleRequest>,
                           o: string, d': map<string, string>, script': seq<Reply<string>>, sent': seq<SingleRequest>)
      requires j < |chunk| && SinglesState(chunk, lang, j, got, d0, s0, S, d, script, sent)
      requires var t, r := chunk[j], Retry(script, maxAttempts);
        && o == Validated(t, r.result.GetOr(t))
        && script' == Drop(script, r.calls)
        && sent' == sent + Repeat((t, lang), r.calls)
        && d' == (if Stores(t, o) then d[t := o] else d)
      ensures SinglesState(chunk, lang, j + 1, got + [o], d0, s0, S, d', script', sent')
    {
      var t, r := chunk[j], Retry(script, maxAttempts);
      SingleLogExtend(s0, sent, chunk, chunk, lang, t, r.calls);
      assert chunk[..j + 1] == chunk[..j] + [t];
      RecordSnoc(d0, chunk[..j], got, t, o);
      ValidatedIdempotent(t, r.result.GetOr(t));
      GotAppend(chunk, got, o);
      if maxAttempts >= 1 {
        RetryCallsPositive(script, maxAttempts);
        RequestedExtend(sent, |s0|, chunk[..j], t, lang, r.calls);
      }
      SingleRunStep(S, chunk[..j], t, lang, s0, got, script, sent, o, script', sent');
    }

    lemma GotAppend(chunk: seq<string>, got: seq<string>, o: string)
      requires |got| < |chunk|
      requires forall k :: 0 <= k < |got| ==> Validated(chunk[k], got[k]) == got[k]
      requires strict ==> forall k :: 0 <= k < |got| ==> SameTokens(chunk[k], got[k])
      requires Validated(chunk[|got|], o) == o
      ensures forall k :: 0 <= k < |got| + 1 ==> Validated(chunk[k], (got + [o])[k]) == (got + [o])[k]
      ensures strict ==> forall k :: 0 <= k < |got| + 1 ==> SameTokens(chunk[k], (got + [o])[k])
    {
      assert forall k :: 0 <= k < |got| ==> (got + [o])[k] == got[k];
    }

    /** One string of the fallback loop. */
    method SingleOne(chunk: seq<string>, lang: string, j: nat, got: seq<string>,
                     ghost d0: map<string, string>, ghost s0: seq<SingleRequest>, ghost S: seq<Reply<string>>, ghost disk0: Disk)
      returns (got': seq<string>)
      requires Valid() && Distinct(chunk) && j < |chunk|
      requires forall u :: u in chunk ==> !PassThrough(u) && u !in d0
      requires SinglesInv(chunk, lang, j, got, d0, s0, S) && DiskCurrent(disk0)
      modifies cache, single
      ensures SinglesInv(chunk, lang, j + 1, got', d0, s0, S) && DiskCurrent(disk0)
      ensures batch.script == old(batch.script) && batch.sent == old(batch.sent)
      ensures cache.loaded == old(cache.loaded)
    {
      var t := chunk[j];
      DistinctNotInPrefix(chunk, j);
      RecordOther(d0, chunk[..j], got, t);
      ghost var d, scr, sBefore := cache.data, single.script, single.sent;
      var o := Translate(t, lang);
      SinglesStateStep(chunk, lang, j, got, d0, s0, S, d, scr, sBefore, o, cache.data, single.script, single.sent);
      got' := got + [o];
    }

    /**
     * The fallback of a failed batch: `[self.translate(t) for t in chunk]`.
     * None of the strings is cached yet, so each one reaches the provider
     * (when any attempt is allowed), and the results are those of the run of
     * single-string calls on `chunk` over the replies the endpoint had left.
     */
    method Singles(chunk: seq<string>, lang: string) returns (got: seq<string>)
      requires Valid() && Distinct(chunk)
      requires forall u :: u in chunk ==> !PassThrough(u) && u !in cache.data
      modifies cache, single
      ensures (got, single.script) == SingleRun(old(single.script), chunk)
      ensures single.sent == old(single.sent) + SingleSent(old(single.script), chunk, lang)
      ensures SinglesInv(chunk, lang, |chunk|, got, old(cache.data), old(single.sent), old(single.script))
      ensures DiskCurrent(old(cache.disk))
      ensures batch.script == old(batch.script) && batch.sent == old(batch.sent)
      ensures cache.loaded == old(cache.loaded)
    {
      ghost var d0, s0, S, disk0 := cache.data, single.sent, single.script, cache.disk;
      got := [];
      var j := 0;
      assert chunk[..0] == [] && s0 + [] == s0;
      while j < |chunk|
        invariant SinglesInv(chunk, lang, j, got, d0, s0, S) && DiskCurrent(disk0)
        invariant batch.script == old(batch.script) && batch.sent == old(batch.sent)
        invariant cache.loaded == old(cache.loaded)
      {
        got := SingleOne(chunk, lang, j, got, d0, s0, S, disk0);
        j := j + 1;
      }
      assert chunk[..j] == chunk;
    }

    /** A chunk whose batch answer is missing or of the wrong length goes through `translate` string by string. */
    predicate Usable(answer: Option<seq<string>>, chunk: seq<string>) {
      answer.Some? && |answer.value| == |chunk|
    }

    /** Recording the same pairs again changes nothing. */
    lemma RecordTwice(d: map<string, string>, srcs: seq<string>, outs: seq<string>)
      requires |srcs| == |outs| && Distinct(srcs)
      ensures Record(Record(d, srcs, outs), srcs, outs) == Record(d, srcs, outs)
    {
      var r1 := Record(d, srcs, outs);
      var r2 := Record(r1, srcs, outs);
      RecordSpec(d, srcs, outs);
      RecordSpec(r1, srcs, outs);
      forall k | k in srcs
        ensures (k in r2 <==> k in r1) && (k in r1 ==> r2[k] == r1[k])
      {
        var m :| 0 <= m < |srcs| && srcs[m] == k;
      }
      assert forall k :: k in r2 <==> k in r1;
    }

    /** The strings of a chunk that go through `translate`: all of them when the batch answer is not usable, else none. */
    function Fallen(answer: Option<seq<string>>, chunk: seq<string>): (r: seq<string>)
      ensures r == chunk || r == []
      ensures r == [] <==> Usable(answer, chunk) || chunk == []
    {
      if Usable(answer, chunk) then [] else chunk
    }

    /**
     * The validation loop of one chunk: `zip(chunk, translated_chunk)`, each
     * answer validated (`vals` names the results), kept in `outputs_for_uniq`
     * and put into the cache when `Stores` says so.
     */
    method ZipChunk(chunk: seq<string>, got: seq<string>, outputs: map<string, string>, ghost vals: seq<string>)
      returns (outputs': map<string, string>)
      requires Distinct(chunk) && |got| == |chunk| && |vals| == |chunk|
      requires forall k :: 0 <= k < |chunk| ==> ValidatedAt(chunk, got, vals, k)
      modifies cache
      ensures forall k :: 0 <= k < |chunk| ==> chunk[k] in outputs' && outputs'[chunk[k]] == vals[k]
      ensures forall u :: u !in chunk ==> (u in outputs' <==> u in outputs) && (u in outputs ==> outputs'[u] == outputs[u])
      ensures cache.data == Record(old(cache.data), chunk, vals)
      ensures cache.disk == old(cache.disk) && cache.loaded == old(cache.loaded)
    {
      outputs' := outputs;
      var j := 0;
      while j < |chunk|
        invariant 0 <= j <= |chunk|
        invariant cache.data == Record(old(cache.data), chunk[..j], vals[..j])
        invariant Zipped(chunk, vals, j, outputs, outputs')
        invariant cache.disk == old(cache.disk) && cache.loaded == old(cache.loaded)
      {
        var src := chunk[j];
        var out := Validated(src, got[j]);
        assert ValidatedAt(chunk, got, vals, j);
        ZipStep(chunk, vals, j, outputs, outputs');
        RecordPrefixStep(old(cache.data), chunk, vals, j);
        outputs' := outputs'[src := out];
        if Stores(src, out) {
          cache.Put(src, out);
        }
        j := j + 1;
      }
      assert chunk[..j] == chunk && vals[..j] == vals;
    }

    /** The answers map after the first `j` strings of a chunk: those answered, everything outside the chunk as it was. */
    ghost predicate Zipped(chunk: seq<string>, vals: seq<string>, j: int, outputs: map<string, string>, outputs': map<string, string>)
      requires 0 <= j <= |chunk| == |vals|
    {
      (forall k :: 0 <= k < j ==> chunk[k] in outputs' && outputs'[chunk[k]] == vals[k]) &&
      (forall u :: u !in chunk ==> (u in outputs' <==> u in outputs) && (u in outputs ==> outputs'[u] == outputs[u]))
    }

    lemma ZipStep(chunk: seq<string>, vals: seq<string>, j: nat, outputs: map<string, string>, outputs': map<string, string>)
      requires Distinct(chunk) && j < |chunk| == |vals| && Zipped(chunk, vals, j, outputs, outputs')
      ensures Zipped(chunk, vals, j + 1, outputs, outputs'[chunk[j] := vals[j]])
    {
    }

    lemma RecordPrefixStep(d: map<string, string>, srcs: seq<string>, outs: seq<string>, j: nat)
      requires |srcs| == |outs| && j < |srcs|
      ensures Record(d, srcs[..j + 1], outs[..j + 1]) ==
        if Stores(srcs[j], outs[j]) then Record(d, srcs[..j], outs[..j])[srcs[j] := outs[j]] else Record(d, srcs[..j], outs[..j])
    {
      assert srcs[..j + 1] == srcs[..j] + [srcs[j]];
      assert outs[..j + 1] == outs[..j] + [outs[j]];
      RecordSnoc(d, srcs[..j], outs[..j], srcs[j], outs[j]);
    }

    /** `vals[k]` is the answer `got[k]` validated against its source `chunk[k]`. */
    predicate ValidatedAt(chunk: seq<string>, got: seq<string>, vals: seq<string>, k: int) {
      0 <= k < |chunk| == |got| == |vals| && vals[k] == Validated(chunk[k], got[k])
    }

    /** Each answer of a chunk, validated against its source. */
    function ValidatedAll(chunk: seq<string>, got: seq<string>): (vals: seq<string>)
      requires |got| == |chunk|
      ensures |vals| == |chunk|
      ensures forall k :: 0 <= k < |chunk| ==> ValidatedAt(chunk, got, vals, k)
    {
      seq(|chunk|, k requires 0 <= k < |chunk| => Validated(chunk[k], got[k]))
    }

    /**
     * The results of one chunk before validation: the batch answer when it is
     * usable, otherwise `translate` on each string (see `Singles`); `vals`
     * names the validated results.
     */
    method ChunkAnswers(chunk: seq<string>, lang: string, answer: Option<seq<string>>)
      returns (got: seq<string>, ghost vals: seq<string>)
      requires Valid() && Distinct(chunk)
      requires forall u :: u in chunk ==> !PassThrough(u) && u !in cache.data
      modifies cache, single
      ensures |got| == |chunk| && |vals| == |chunk|
      ensures forall k :: 0 <= k < |chunk| ==> ValidatedAt(chunk, got, vals, k)
      ensures Usable(answer, chunk) ==> got == answer.value
      ensures Usable(answer, chunk) ==> cache.data == old(cache.data) && cache.disk == old(cache.disk)
      ensures !Usable(answer, chunk) ==> cache.data == Record(old(cache.data), chunk, vals)
      ensures !Usable(answer, chunk) && maxAttempts >= 1 ==>
        forall k :: 0 <= k < |chunk| ==> Requested(single.sent, |old(single.sent)|, chunk[k], lang)
      ensures SingleLog(old(single.sent), single.sent, chunk, lang)
      ensures single.script == SingleRun(old(single.script), Fallen(answer, chunk)).1
      ensures single.sent == old(single.sent) + SingleSent(old(single.script), Fallen(answer, chunk), lang)
      ensures !Usable(answer, chunk) ==> vals == SingleRun(old(single.script), chunk).0
      ensures DiskCurrent(old(cache.disk)) && cache.loaded == old(cache.loaded)
      ensures batch.script == old(batch.script) && batch.sent == old(batch.sent)
    {
      if answer.None? || |answer.value| != |chunk| {
        got := Singles(chunk, lang);
        assert chunk[..|chunk|] == chunk;
        vals := ValidatedAll(chunk, got);
        assert vals == got by {
          forall k | 0 <= k < |chunk| ensures vals[k] == got[k] {
            assert ValidatedAt(chunk, got, vals, k);
          }
        }
      } else {
        got := answer.value;
        vals := ValidatedAll(chunk, got);
        assert single.sent[..|single.sent|] == single.sent && single.sent + [] == single.sent;
      }
    }

    /**
     * One chunk of `translate_many`: the batch request with retries, the
     * fallback when its answer is not usable, then the validation of each
     * answer, the cache puts and one save.
     */
    method ProcessChunk(chunk: seq<string>, lang: string, outputs: map<string, string>)
      returns (outputs': map<string, string>, ghost vals: seq<string>, ghost answer: Option<seq<string>>)
      requires Valid() && Distinct(chunk)
      requires forall u :: u in chunk ==> !PassThrough(u) && u !in cache.data
      modifies cache, single, batch
      ensures answer == Retry(old(batch.script), maxAttempts).result
      ensures batch.script == Drop(old(batch.script), Retry(old(batch.script), maxAttempts).calls)
      ensures batch.sent == old(batch.sent) + Repeat((chunk, lang), Retry(old(batch.script), maxAttempts).calls)
      ensures ChunkDone(chunk, answer, vals, outputs', single.sent, |old(single.sent)|, lang)
      ensures forall u :: u !in chunk ==> (u in outputs' <==> u in outputs) && (u in outputs ==> outputs'[u] == outputs[u])
      ensures cache.data == Record(old(cache.data), chunk, vals)
      ensures cache.path != "" ==> cache.disk == Stored(cache.data)
      ensures cache.path == "" ==> cache.disk == old(cache.disk)
      ensures SingleLog(old(single.sent), single.sent, chunk, lang)
      ensures single.script == SingleRun(old(single.script), Fallen(answer, chunk)).1
      ensures single.sent == old(single.sent) + SingleSent(old(single.script), Fallen(answer, chunk), lang)
      ensures !Usable(answer, chunk) ==> vals == SingleRun(old(single.script), chunk).0
      ensures cache.loaded == old(cache.loaded)
    {
      ghost var d0 := cache.data;
      var tc, calls := RetryCall(batch, (chunk, lang));
      answer := tc;
      var got;
      got, vals := ChunkAnswers(chunk, lang, tc);
      if !Usable(answer, chunk) {
        RecordTwice(d0, chunk, vals);
      }
      outputs' := ZipChunk(chunk, got, outputs, vals);
      ChunkDoneIntro(chunk, answer, got, vals, outputs', single.sent, |old(single.sent)|, lang);
      cache.Save();
    }

    /** The result at position `k` carries the same placeholder tokens as its source. */
    predicate TokensKeptAt(srcs: seq<string>, outs: seq<string>, k: int) {
      0 <= k < |srcs| && k < |outs| && SameTokens(srcs[k], outs[k])
    }

    /** The result kept for `u` carries the same placeholder tokens as `u`. */
    predicate TokensKeptFor(outputs: map<string, string>, u: string) {
      u in outputs && SameTokens(u, outputs[u])
    }

    /**
     * What one chunk of the loop leaves behind: `vals` are the validated
     * results; a usable batch answer is what was validated; otherwise every
     * string was requested on its own (when any attempt is allowed); and
     * `outputs_for_uniq` holds the results.
     */
    ghost predicate ChunkDone(chunk: seq<string>, answer: Option<seq<string>>, vals: seq<string>,
                              outputs: map<string, string>, sent: seq<SingleRequest>, from: int, lang: string)
    {
      && |vals| == |chunk|
      && (Usable(answer, chunk) ==> forall k :: 0 <= k < |chunk| ==> ValidatedAt(chunk, answer.value, vals, k))
      && (!Usable(answer, chunk) && maxAttempts >= 1 ==>
            forall k :: 0 <= k < |chunk| ==> Requested(sent, from, chunk[k], lang))
      && (strict ==> forall k :: 0 <= k < |chunk| ==> TokensKeptAt(chunk, vals, k))
      && (forall k :: 0 <= k < |chunk| ==> chunk[k] in outputs && outputs[chunk[k]] == vals[k])
    }

    /** A chunk is settled once its results are validated answers and are kept in `outputs`. */
    lemma ChunkDoneIntro(chunk: seq<string>, answer: Option<seq<string>>, got: seq<string>, vals: seq<string>,
                         outputs: map<string, string>, sent: seq<SingleRequest>, from: int, lang: string)
      requires |got| == |chunk| && |vals| == |chunk|
      requires forall k :: 0 <= k < |chunk| ==> ValidatedAt(chunk, got, vals, k)
      requires Usable(answer, chunk) ==> got == answer.value
      requires !Usable(answer, chunk) && maxAttempts >= 1 ==> forall k :: 0 <= k < |chunk| ==> Requested(sent, from, chunk[k], lang)
      requires forall k :: 0 <= k < |chunk| ==> chunk[k] in outputs && outputs[chunk[k]] == vals[k]
      ensures ChunkDone(chunk, answer, vals, outputs, sent, from, lang)
    {
      if strict {
        forall k | 0 <= k < |chunk|
          ensures TokensKeptAt(chunk, vals, k)
        {
          assert ValidatedAt(chunk, got, vals, k);
        }
      }
    }

    /** A later chunk leaves an earlier one's record intact. */
    lemma ChunkDoneKeep(chunk: seq<string>, answer: Option<seq<string>>, vals: seq<string>,
                        outputs: map<string, string>, outputs': map<string, string>,
                        sent: seq<SingleRequest>, sent': seq<SingleRequest>, from: int, lang: string)
      requires ChunkDone(chunk, answer, vals, outputs, sent, from, lang)
      requires forall k :: 0 <= k < |chunk| ==> chunk[k] in outputs' && outputs'[chunk[k]] == outputs[chunk[k]]
      requires |sent| <= |sent'| && sent'[..|sent|] == sent
      ensures ChunkDone(chunk, answer, vals, outputs', sent', from, lang)
    {
      forall u | Requested(sent, from, u, lang)
        ensures Requested(sent', from, u, lang)
      {
        var k :| 0 <= from <= k < |sent| && sent[k] == (u, lang);
        assert sent'[k] == sent[k];
      }
    }

    /** The chunk just processed, with the log measured from an earlier point. */
    lemma ChunkDoneFrom(chunk: seq<string>, answer: Option<seq<string>>, vals: seq<string>,
                        outputs: map<string, string>, sent: seq<SingleRequest>, from: int, from': int, lang: string)
      requires ChunkDone(chunk, answer, vals, outputs, sent, from', lang)
      requires 0 <= from <= from'
      ensures ChunkDone(chunk, answer, vals, outputs, sent, from, lang)
    {
      forall u | Requested(sent, from', u, lang)
        ensures Requested(sent, from, u, lang)
      {
        var k :| 0 <= from' <= k < |sent| && sent[k] == (u, lang);
      }
    }

    lemma SingleLogTrans(s0: seq<SingleRequest>, s1: seq<SingleRequest>, s2: seq<SingleRequest>,
                         texts: seq<string>, part: seq<string>, lang: string)
      requires SingleLog(s0, s1, texts, lang) && SingleLog(s1, s2, part, lang)
      requires forall u :: u in part ==> u in texts
      ensures SingleLog(s0, s2, texts, lang)
    {
      assert s2[..|s0|] == s2[..|s1|][..|s0|];
      forall k | |s0| <= k < |s2|
        ensures s2[k].1 == lang && s2[k].0 in texts
      {
        if k < |s1| {
          assert s2[k] == s2[..|s1|][k];
        }
      }
    }

    /** The strings of the chunks so far that went through `translate`, chunk after chunk. */
    function Fallens(chunks: seq<seq<string>>, answers: seq<Option<seq<string>>>): seq<string>
      requires |answers| == |chunks|
    {
      if chunks == [] then []
      else
        var n := |chunks| - 1;
        Fallens(chunks[..n], answers[..n]) + Fallen(answers[n], chunks[n])
    }

    /** A chunk whose batch answer was not usable has as results those of its own calls within the run. */
    ghost predicate ChunkSingles(chunk: seq<string>, answer: Option<seq<string>>, vals: seq<string>,
                                 asked: seq<string>, singles: seq<string>)
    {
      !Usable(answer, chunk) ==> FellBack(chunk, vals, asked, singles)
    }

    /**
     * The single-string endpoint during the chunk loop, which started with the
     * replies `S1` and the log `s1`: the fallbacks so far are one run of
     * calls, which left the replies `sc` and the log `s`, and each fallen-back
     * chunk has its own segment of that run.
     */
    ghost predicate SinglesSoFar(lang: string, chunks: seq<seq<string>>, answers: seq<Option<seq<string>>>,
                                 valss: seq<seq<string>>, S1: seq<Reply<string>>, s1: seq<SingleRequest>,
                                 sc: seq<Reply<string>>, s: seq<SingleRequest>)
    {
      && |answers| == |chunks| && |valss| == |chunks|
      && var asked := Fallens(chunks, answers);
         && SingleRun(S1, asked).1 == sc && s == s1 + SingleSent(S1, asked, lang)
         && forall c :: 0 <= c < |chunks| ==> ChunkSingles(chunks[c], answers[c], valss[c], asked, SingleRun(S1, asked).0)
    }

    /** The fallbacks so far, one chunk further on. */
    lemma FallensSnoc(chunks: seq<seq<string>>, answers: seq<Option<seq<string>>>, chunk: seq<string>, answer: Option<seq<string>>)
      requires |answers| == |chunks|
      ensures Fallens(chunks + [chunk], answers + [answer]) == Fallens(chunks, answers) + Fallen(answer, chunk)
    {
      assert (chunks + [chunk])[..|chunks|] == chunks && (answers + [answer])[..|answers|] == answers;
    }

    /** An earlier chunk keeps its segment when the run goes on. */
    lemma ChunkSinglesKeep(chunk: seq<string>, answer: Option<seq<string>>, vals: seq<string>,
                           asked: seq<string>, singles: seq<string>, more: seq<string>, moreS: seq<string>)
      requires ChunkSingles(chunk, answer, vals, asked, singles) && |asked| == |singles|
      ensures ChunkSingles(chunk, answer, vals, asked + more, singles + moreS)
    {
      if !Usable(answer, chunk) {
        FellBackWithin(chunk, vals, asked, singles, [], [], more, moreS);
        assert [] + asked + more == asked + more && [] + singles + moreS == singles + moreS;
      }
    }

    /** The segments of the chunks so far, and of the chunk just done, once its calls are added to the run. */
    lemma ChunkSinglesStep(chunks: seq<seq<string>>, answers: seq<Option<seq<string>>>, valss: seq<seq<string>>,
                           chunk: seq<string>, answer: Option<seq<string>>, vals: seq<string>,
                           asked: seq<string>, singles: seq<string>, more: seq<string>)
      requires |answers| == |chunks| && |valss| == |chunks| && |asked| == |singles|
      requires forall c :: 0 <= c < |chunks| ==> ChunkSingles(chunks[c], answers[c], valss[c], asked, singles)
      requires |more| == |Fallen(answer, chunk)|
      requires !Usable(answer, chunk) ==> vals == more
      ensures var chunks', answers', valss' := chunks + [chunk], answers + [answer], valss + [vals];
        forall c :: 0 <= c < |chunks'| ==>
          ChunkSingles(chunks'[c], answers'[c], valss'[c], asked + Fallen(answer, chunk), singles + more)
    {
      var F := Fallen(answer, chunk);
      var chunks', answers', valss' := chunks + [chunk], answers + [answer], valss + [vals];
      forall c | 0 <= c < |chunks'|
        ensures ChunkSingles(chunks'[c], answers'[c], valss'[c], asked + F, singles + more)
      {
        if c < |chunks| {
          ChunkSinglesKeep(chunks[c], answers[c], valss[c], asked, singles, F, more);
        } else if !Usable(answer, chunk) {
          assert (asked + F)[|asked|..|asked| + |chunk|] == chunk;
          assert (singles + more)[|asked|..|asked| + |chunk|] == vals;
          assert SegmentAt(chunk, vals, asked + F, singles + more, |asked|);
        }
      }
    }

    /** The single-string endpoint after one more chunk of the loop. */
    lemma SinglesStep(lang: string, chunks: seq<seq<string>>, answers: seq<Option<seq<string>>>, valss: seq<seq<string>>,
                      chunk: seq<string>, answer: Option<seq<string>>, vals: seq<string>,
                      S1: seq<Reply<string>>, s1: seq<SingleRequest>, sc: seq<Reply<string>>, s: seq<SingleRequest>,
                      sc': seq<Reply<string>>, s': seq<SingleRequest>)
      requires SinglesSoFar(lang, chunks, answers, valss, S1, s1, sc, s)
      requires sc' == SingleRun(sc, Fallen(answer, chunk)).1
      requires s' == s + SingleSent(sc, Fallen(answer, chunk), lang)
      requires !Usable(answer, chunk) ==> vals == SingleRun(sc, chunk).0
      ensures SinglesSoFar(lang, chunks + [chunk], answers + [answer], valss + [vals], S1, s1, sc', s')
    {
      var asked, F := Fallens(chunks, answers), Fallen(answer, chunk);
      FallensSnoc(chunks, answers, chunk, answer);
      SingleRunAppend(S1, asked, F);
      SingleSentAppend(S1, asked, F, lang);
      AppendAssoc(s1, SingleSent(S1, asked, lang), SingleSent(sc, F, lang));
      ChunkSinglesStep(chunks, answers, valss, chunk, answer, vals, asked, SingleRun(S1, asked).0, SingleRun(sc, F).0);
    }

    /** What the chunk loop has established once the strings before `off` are done, given the state it reached. */
    ghost predicate BatchesState(order: seq<string>, lang: string, off: int, outputs: map<string, string>,
                                 chunks: seq<seq<string>>, answers: seq<Option<seq<string>>>, valss: seq<seq<string>>,
                                 d0: map<string, string>, s0: seq<SingleRequest>,
                                 b0: seq<Reply<seq<string>>>, bs0: seq<BatchRequest>,
                                 d: map<string, string>, s: seq<SingleRequest>,
                                 b: seq<Reply<seq<string>>>, bs: seq<BatchRequest>)
    {
      && ChunksSoFar(order, off, chunks)
      && RepliesSoFar(lang, chunks, answers, b0, bs0, b, bs)
      && OutputsSoFar(order, lang, off, outputs, chunks, answers, valss, |s0|, s)
      && CacheSoFar(order, lang, off, valss, d0, s0, d, s)
    }

    /** The chunks sent so far are the first slices of `order`, and they cover it up to `off`. */
    ghost predicate ChunksSoFar(order: seq<string>, off: int, chunks: seq<seq<string>>) {
      && batchSize >= 1 && Distinct(order)
      && 0 <= off <= |order|
      && Chunks(order, batchSize) == chunks + Chunks(order[off..], batchSize)
      && Flatten(chunks) == order[..off]
    }

    /** One batch request with retries per chunk so far: the answers got, the replies left and the log. */
    ghost predicate RepliesSoFar(lang: string, chunks: seq<seq<string>>, answers: seq<Option<seq<string>>>,
                                 b0: seq<Reply<seq<string>>>, bs0: seq<BatchRequest>,
                                 b: seq<Reply<seq<string>>>, bs: seq<BatchRequest>)
    {
      && |answers| == |chunks|
      && Chain(b0, |chunks|, maxAttempts) == (answers, b)
      && bs == bs0 + BatchLog(b0, chunks, lang, maxAttempts)
    }

    /** Every chunk so far is settled, and `outputs_for_uniq` holds exactly the strings before `off`. */
    ghost predicate OutputsSoFar(order: seq<string>, lang: string, off: int, outputs: map<string, string>,
                                 chunks: seq<seq<string>>, answers: seq<Option<seq<string>>>, valss: seq<seq<string>>,
                                 from: int, s: seq<SingleRequest>)
    {
      && 0 <= off <= |order|
      && |answers| == |chunks| && |valss| == |chunks|
      && (forall c :: 0 <= c < |chunks| ==> ChunkDone(chunks[c], answers[c], valss[c], outputs, s, from, lang))
      && (forall u :: u in outputs <==> u in order[..off])
      && |Flatten(valss)| == off
      && (forall m :: 0 <= m < off ==> outputs[order[m]] == Flatten(valss)[m])
      && (strict ==> forall u :: u in outputs ==> TokensKeptFor(outputs, u))
    }

    /** The cache holds the results so far on top of `d0`; the single-string requests ask for strings of `order`. */
    ghost predicate CacheSoFar(order: seq<string>, lang: string, off: int, valss: seq<seq<string>>,
                               d0: map<string, string>, s0: seq<SingleRequest>, d: map<string, string>, s: seq<SingleRequest>)
    {
      && 0 <= off <= |order|
      && |Flatten(valss)| == off
      && d == Record(d0, order[..off], Flatten(valss))
      && (forall k :: off <= k < |order| ==> order[k] !in d && !PassThrough(order[k]))
      && SingleLog(s0, s, order, lang)
    }

    /** The loop state over the translator's cache and endpoints, with the cache file written after every chunk. */
    ghost predicate BatchesInv(order: seq<string>, lang: string, off: int, outputs: map<string, string>,
                               chunks: seq<seq<string>>, answers: seq<Option<seq<string>>>, valss: seq<seq<string>>,
                               d0: map<string, string>, s0: seq<SingleRequest>,
                               b0: seq<Reply<seq<string>>>, bs0: seq<BatchRequest>, S0: seq<Reply<string>>, disk0: Disk)
      reads cache, single, batch
    {
      BatchesAt(order, lang, off, outputs, chunks, answers, valss, d0, s0, b0, bs0, S0, disk0,
                cache.path, cache.data, cache.disk, single.script, single.sent, batch.script, batch.sent)
    }

    /** `BatchesInv` over a given cache path, map and disk, single-string replies and log, and batch replies and log. */
    ghost predicate BatchesAt(order: seq<string>, lang: string, off: int, outputs: map<string, string>,
                              chunks: seq<seq<string>>, answers: seq<Option<seq<string>>>, valss: seq<seq<string>>,
                              d0: map<string, string>, s0: seq<SingleRequest>,
                              b0: seq<Reply<seq<string>>>, bs0: seq<BatchRequest>, S0: seq<Reply<string>>, disk0: Disk,
                              path: string, d: map<string, string>, disk: Disk,
                              sc: seq<Reply<string>>, s: seq<SingleRequest>, b: seq<Reply<seq<string>>>, bs: seq<BatchRequest>)
    {
      && BatchesState(order, lang, off, outputs, chunks, answers, valss, d0, s0, b0, bs0, d, s, b, bs)
      && SinglesSoFar(lang, chunks, answers, valss, S0, s0, sc, s)
      && (off == 0 || path == "" ==> disk == disk0)
      && (off > 0 && path != "" ==> disk == Stored(d))
    }

    /**
     * One chunk of the batch loop on values: from the state before the chunk and
     * what `ProcessChunk` promises, the loop state one chunk further on.
     */
    lemma BatchesAtStep(order: seq<string>, lang: string, off: nat, end: nat, outputs: map<string, string>,
                        chunks: seq<seq<string>>, answers: seq<Option<seq<string>>>, valss: seq<seq<string>>,
                        d0: map<string, string>, s0: seq<SingleRequest>,
                        b0: seq<Reply<seq<string>>>, bs0: seq<BatchRequest>, S0: seq<Reply<string>>, disk0: Disk,
                        path: string, d: map<string, string>, disk: Disk,
                        sc: seq<Reply<string>>, s: seq<SingleRequest>, b: seq<Reply<seq<string>>>, bs: seq<BatchRequest>,
                        chunk: seq<string>, answer: Option<seq<string>>, vals: seq<string>, outputs': map<string, string>,
                        d': map<string, string>, disk': Disk,
                        sc': seq<Reply<string>>, s': seq<SingleRequest>, b': seq<Reply<seq<string>>>, bs': seq<BatchRequest>)
      requires BatchesAt(order, lang, off, outputs, chunks, answers, valss, d0, s0, b0, bs0, S0, disk0,
                         path, d, disk, sc, s, b, bs)
      requires off < |order| && end == (if off + batchSize < |order| then off + batchSize else |order|)
      requires chunk == order[off..end]
      requires answer == Retry(b, maxAttempts).result
      requires b' == Drop(b, Retry(b, maxAttempts).calls)
      requires bs' == bs + Repeat((chunk, lang), Retry(b, maxAttempts).calls)
      requires ChunkDone(chunk, answer, vals, outputs', s', |s|, lang)
      requires forall u :: u !in chunk ==> (u in outputs' <==> u in outputs) && (u in outputs ==> outputs'[u] == outputs[u])
      requires d' == Record(d, chunk, vals)
      requires path != "" ==> disk' == Stored(d')
      requires path == "" ==> disk' == disk
      requires SingleLog(s, s', chunk, lang)
      requires sc' == SingleRun(sc, Fallen(answer, chunk)).1
      requires s' == s + SingleSent(sc, Fallen(answer, chunk), lang)
      requires !Usable(answer, chunk) ==> vals == SingleRun(sc, chunk).0
      ensures BatchesAt(order, lang, end, outputs', chunks + [chunk], answers + [answer], valss + [vals],
                        d0, s0, b0, bs0, S0, disk0, path, d', disk', sc', s', b', bs')
    {
      BatchStep(order, lang, off, end, outputs, outputs', chunks, answers, valss, chunk, answer, vals,
                d0, d, d', s0, s, s', b0, b, bs, b', bs', bs0);
      SinglesStep(lang, chunks, answers, valss, chunk, answer, vals, S0, s0, sc, s, sc', s');
    }

    lemma PrefixNotInChunk(order: seq<string>, off: nat, end: nat, u: string)
      requires Distinct(order) && off <= end <= |order|
      requires u in order[..off]
      ensures u !in order[off..end]
    {
      DistinctSlice(order, off, end);
      var i :| 0 <= i < off && order[..off][i] == u;
      assert order[i] == u;
    }

    /** `outputs_for_uniq` after one more chunk: its keys are the strings done so far, each with its result. */
    lemma OutputsStep(order: seq<string>, off: nat, end: nat, outputs: map<string, string>, outputs': map<string, string>,
                      done: seq<string>, vals: seq<string>)
      requires Distinct(order) && off <= end <= |order|
      requires |done| == off && |vals| == end - off
      requires forall u :: u in outputs <==> u in order[..off]
      requires forall m :: 0 <= m < off ==> outputs[order[m]] == done[m]
      requires forall k :: 0 <= k < end - off ==> order[off..end][k] in outputs' && outputs'[order[off..end][k]] == vals[k]
      requires forall u :: u !in order[off..end] ==> (u in outputs' <==> u in outputs) && (u in outputs ==> outputs'[u] == outputs[u])
      ensures forall u :: u in outputs' <==> u in order[..end]
      ensures forall m :: 0 <= m < end ==> outputs'[order[m]] == (done + vals)[m]
    {
      var chunk := order[off..end];
      assert order[..end] == order[..off] + chunk;
      forall u | u in chunk
        ensures u in outputs'
      {
        var k :| 0 <= k < |chunk| && chunk[k] == u;
      }
      forall m | 0 <= m < end
        ensures order[m] in outputs' && outputs'[order[m]] == (done + vals)[m]
      {
        if m < off {
          assert order[m] in order[..off];
          PrefixNotInChunk(order, off, end, order[m]);
        } else {
          assert order[m] == chunk[m - off];
        }
      }
    }

    /** Every result kept so far preserves the source's tokens (strict mode). */
    lemma TokensStep(chunk: seq<string>, vals: seq<string>, outputs: map<string, string>, outputs': map<string, string>)
      requires strict
      requires |vals| == |chunk|
      requires forall u :: u in outputs ==> TokensKeptFor(outputs, u)
      requires forall k :: 0 <= k < |chunk| ==> TokensKeptAt(chunk, vals, k)
      requires forall k :: 0 <= k < |chunk| ==> chunk[k] in outputs' && outputs'[chunk[k]] == vals[k]
      requires forall u :: u !in chunk ==> (u in outputs' <==> u in outputs) && (u in outputs ==> outputs'[u] == outputs[u])
      ensures forall u :: u in outputs' ==> TokensKeptFor(outputs', u)
    {
      forall u | u in outputs'
        ensures TokensKeptFor(outputs', u)
      {
        if u in chunk {
          var k :| 0 <= k < |chunk| && chunk[k] == u;
          assert TokensKeptAt(chunk, vals, k);
        } else {
          assert TokensKeptFor(outputs, u);
        }
      }
    }

    /** Earlier chunks keep their records, and the new chunk's record counts from the start of the loop. */
    lemma ChunksDoneStep(order: seq<string>, lang: string, off: nat, end: nat,
                         outputs: map<string, string>, outputs': map<string, string>,
                         chunks: seq<seq<string>>, answers: seq<Option<seq<string>>>, valss: seq<seq<string>>,
                         chunk: seq<string>, answer: Option<seq<string>>, vals: seq<string>,
                         s0: seq<SingleRequest>, s: seq<SingleRequest>, s': seq<SingleRequest>)
      requires Distinct(order) && off <= end <= |order| && chunk == order[off..end]
      requires Flatten(chunks) == order[..off] && |answers| == |chunks| && |valss| == |chunks|
      requires forall c :: 0 <= c < |chunks| ==> ChunkDone(chunks[c], answers[c], valss[c], outputs, s, |s0|, lang)
      requires ChunkDone(chunk, answer, vals, outputs', s', |s|, lang)
      requires forall u :: u !in chunk ==> (u in outputs' <==> u in outputs) && (u in outputs ==> outputs'[u] == outputs[u])
      requires |s0| <= |s| <= |s'| && s'[..|s|] == s
      ensures var chunks', answers', valss' := chunks + [chunk], answers + [answer], valss + [vals];
        forall c :: 0 <= c < |chunks'| ==> ChunkDone(chunks'[c], answers'[c], valss'[c], outputs', s', |s0|, lang)
    {
      var chunks', answers', valss' := chunks + [chunk], answers + [answer], valss + [vals];
      forall c | 0 <= c < |chunks'|
        ensures ChunkDone(chunks'[c], answers'[c], valss'[c], outputs', s', |s0|, lang)
      {
        if c < |chunks| {
          forall k | 0 <= k < |chunks[c]|
            ensures chunks[c][k] in outputs' && outputs'[chunks[c][k]] == outputs[chunks[c][k]]
          {
            FlattenMember(chunks, c, k);
            PrefixNotInChunk(order, off, end, chunks[c][k]);
          }
          ChunkDoneKeep(chunks[c], answers[c], valss[c], outputs, outputs', s, s', |s0|, lang);
        } else {
          ChunkDoneFrom(chunk, answer, vals, outputs', s', |s0|, |s|, lang);
        }
      }
    }

    /** The cache after one more chunk, and the strings still to come are still not in it. */
    lemma CacheStep(order: seq<string>, off: nat, end: nat, d0: map<string, string>, d: map<string, string>,
                    done: seq<string>, vals: seq<string>)
      requires Distinct(order) && off <= end <= |order|
      requires |done| == off && |vals| == end - off
      requires d == Record(d0, order[..off], done)
      requires forall k :: off <= k < |order| ==> order[k] !in d
      ensures Record(d, order[off..end], vals) == Record(d0, order[..end], done + vals)
      ensures forall k :: end <= k < |order| ==> order[k] !in Record(d, order[off..end], vals)
    {
      DistinctSlice(order, off, end);
      assert order[..end] == order[..off] + order[off..end];
      RecordAppend(d0, order[..off], done, order[off..end], vals);
      forall k | end <= k < |order|
        ensures order[k] !in Record(d, order[off..end], vals)
      {
        RecordOther(d, order[off..end], vals, order[k]);
      }
    }

    /** The chunks still to come, once the chunk at `off` is done. */
    lemma ChunkListStep(order: seq<string>, off: nat, end: nat, chunks: seq<seq<string>>, chunk: seq<string>)
      requires batchSize >= 1 && off < |order| && end == (if off + batchSize < |order| then off + batchSize else |order|)
      requires chunk == order[off..end]
      requires Chunks(order, batchSize) == chunks + Chunks(order[off..], batchSize)
      ensures Chunks(order, batchSize) == (chunks + [chunk]) + Chunks(order[end..], batchSize)
    {
      ChunksStep(order, batchSize, off);
      var rest := Chunks(order[end..], batchSize);
      assert chunks + ([chunk] + rest) == (chunks + [chunk]) + rest;
    }

    /** The strings done, once the chunk at `off` is done. */
    lemma DoneStep(order: seq<string>, off: nat, end: nat, chunks: seq<seq<string>>, chunk: seq<string>)
      requires off <= end <= |order| && chunk == order[off..end]
      requires Flatten(chunks) == order[..off]
      ensures Flatten(chunks + [chunk]) == order[..end]
    {
      FlattenSnoc(chunks, chunk);
      assert order[..end] == order[..off] + order[off..end];
    }

    lemma ChunksSoFarStep(order: seq<string>, off: nat, end: nat, chunks: seq<seq<string>>, chunk: seq<string>)
      requires ChunksSoFar(order, off, chunks) && off < |order|
      requires end == (if off + batchSize < |order| then off + batchSize else |order|)
      requires chunk == order[off..end]
      ensures ChunksSoFar(order, end, chunks + [chunk])
    {
      ChunkListStep(order, off, end, chunks, chunk);
      DoneStep(order, off, end, chunks, chunk);
    }

    /** The batch replies consumed and the batch log after one more chunk. */
    lemma ReplyStep(lang: string, chunks: seq<seq<string>>, answers: seq<Option<seq<string>>>,
                    chunk: seq<string>, answer: Option<seq<string>>,
                    b0: seq<Reply<seq<string>>>, b: seq<Reply<seq<string>>>, bs: seq<BatchRequest>,
                    b': seq<Reply<seq<string>>>, bs': seq<BatchRequest>, bs0: seq<BatchRequest>)
      requires RepliesSoFar(lang, chunks, answers, b0, bs0, b, bs)
      requires answer == Retry(b, maxAttempts).result
      requires b' == Drop(b, Retry(b, maxAttempts).calls)
      requires bs' == bs + Repeat((chunk, lang), Retry(b, maxAttempts).calls)
      ensures RepliesSoFar(lang, chunks + [chunk], answers + [answer], b0, bs0, b', bs')
    {
      assert (chunks + [chunk])[..|chunks|] == chunks;
    }

    /** The chunk records and `outputs_for_uniq` after one more chunk. */
    lemma OutStep(order: seq<string>, lang: string, off: nat, end: nat,
                  outputs: map<string, string>, outputs': map<string, string>,
                  chunks: seq<seq<string>>, answers: seq<Option<seq<string>>>, valss: seq<seq<string>>,
                  chunk: seq<string>, answer: Option<seq<string>>, vals: seq<string>,
                  s0: seq<SingleRequest>, s: seq<SingleRequest>, s': seq<SingleRequest>)
      requires Distinct(order) && off <= end <= |order| && chunk == order[off..end]
      requires Flatten(chunks) == order[..off]
      requires OutputsSoFar(order, lang, off, outputs, chunks, answers, valss, |s0|, s)
      requires ChunkDone(chunk, answer, vals, outputs', s', |s|, lang)
      requires forall u :: u !in chunk ==> (u in outputs' <==> u in outputs) && (u in outputs ==> outputs'[u] == outputs[u])
      requires SingleLog(s0, s, order, lang) && SingleLog(s, s', chunk, lang)
      ensures OutputsSoFar(order, lang, end, outputs', chunks + [chunk], answers + [answer], valss + [vals], |s0|, s')
    {
      ChunksDoneStep(order, lang, off, end, outputs, outputs', chunks, answers, valss, chunk, answer, vals, s0, s, s');
      OutputsStep(order, off, end, outputs, outputs', Flatten(valss), vals);
      FlattenSnoc(valss, vals);
      if strict {
        TokensStep(chunk, vals, outputs, outputs');
      }
    }

    /** The cache and the single-string log after one more chunk. */
    lemma CacheSoFarStep(order: seq<string>, lang: string, off: nat, end: nat, valss: seq<seq<string>>,
                         chunk: seq<string>, vals: seq<string>,
                         d0: map<string, string>, s0: seq<SingleRequest>,
                         d: map<string, string>, s: seq<SingleRequest>, d': map<string, string>, s': seq<SingleRequest>)
      requires Distinct(order) && off <= end <= |order| && chunk == order[off..end] && |vals| == |chunk|
      requires CacheSoFar(order, lang, off, valss, d0, s0, d, s)
      requires d' == Record(d, chunk, vals)
      requires SingleLog(s, s', chunk, lang)
      ensures CacheSoFar(order, lang, end, valss + [vals], d0, s0, d', s')
    {
      CacheStep(order, off, end, d0, d, Flatten(valss), vals);
      FlattenSnoc(valss, vals);
      SingleLogTrans(s0, s, s', order, chunk, lang);
    }

    /** The bookkeeping of one pass of the chunk loop. */
    lemma BatchStep(order: seq<string>, lang: string, off: nat, end: nat,
                    outputs: map<string, string>, outputs': map<string, string>,
                    chunks: seq<seq<string>>, answers: seq<Option<seq<string>>>, valss: seq<seq<string>>,
                    chunk: seq<string>, answer: Option<seq<string>>, vals: seq<string>,
                    d0: map<string, string>, d: map<string, string>, d': map<string, string>,
                    s0: seq<SingleRequest>, s: seq<SingleRequest>, s': seq<SingleRequest>,
                    b0: seq<Reply<seq<string>>>, b: seq<Reply<seq<string>>>, bs: seq<BatchRequest>,
                    b': seq<Reply<seq<string>>>, bs': seq<BatchRequest>, bs0: seq<BatchRequest>)
      requires BatchesState(order, lang, off, outputs, chunks, answers, valss, d0, s0, b0, bs0, d, s, b, bs)
      requires off < |order| && end == (if off + batchSize < |order| then off + batchSize else |order|)
      requires chunk == order[off..end]
      requires answer == Retry(b, maxAttempts).result
      requires b' == Drop(b, Retry(b, maxAttempts).calls)
      requires bs' == bs + Repeat((chunk, lang), Retry(b, maxAttempts).calls)
      requires ChunkDone(chunk, answer, vals, outputs', s', |s|, lang)
      requires forall u :: u !in chunk ==> (u in outputs' <==> u in outputs) && (u in outputs ==> outputs'[u] == outputs[u])
      requires d' == Record(d, chunk, vals)
      requires SingleLog(s, s', chunk, lang)
      ensures BatchesState(order, lang, end, outputs', chunks + [chunk], answers + [answer], valss + [vals],
                           d0, s0, b0, bs0, d', s', b', bs')
    {
      ChunksSoFarStep(order, off, end, chunks, chunk);
      ReplyStep(lang, chunks, answers, chunk, answer, b0, b, bs, b', bs', bs0);
      OutStep(order, lang, off, end, outputs, outputs', chunks, answers, valss, chunk, answer, vals, s0, s, s');
      CacheSoFarStep(order, lang, off, end, valss, chunk, vals, d0, s0, d, s, d', s');
    }

    /** One pass of the chunk loop: the chunk at `off`. */
    method BatchOne(order: seq<string>, lang: string, off: nat, outputs: map<string, string>,
                    ghost chunks: seq<seq<string>>, ghost answers: seq<Option<seq<string>>>, ghost valss: seq<seq<string>>,
                    ghost d0: map<string, string>, ghost s0: seq<SingleRequest>,
                    ghost b0: seq<Reply<seq<string>>>, ghost bs0: seq<BatchRequest>, ghost S0: seq<Reply<string>>,
                    ghost disk0: Disk)
      returns (end: nat, outputs': map<string, string>,
               ghost chunks': seq<seq<string>>, ghost answers': seq<Option<seq<string>>>, ghost valss': seq<seq<string>>)
      requires Valid() && off < |order|
      requires BatchesInv(order, lang, off, outputs, chunks, answers, valss, d0, s0, b0, bs0, S0, disk0)
      modifies cache, single, batch
      ensures off < end
      ensures BatchesInv(order, lang, end, outputs', chunks', answers', valss', d0, s0, b0, bs0, S0, disk0)
      ensures cache.loaded == old(cache.loaded)
    {
      end := if off + batchSize < |order| then off + batchSize else |order|;
      var chunk := order[off..end];
      DistinctSlice(order, off, end);
      ghost var sBefore, dBefore, bBefore, bsBefore, scBefore := single.sent, cache.data, batch.script, batch.sent, single.script;
      forall u | u in chunk
        ensures !PassThrough(u) && u !in cache.data
      {
        var i :| 0 <= i < |chunk| && chunk[i] == u;
        assert u == order[off + i];
      }
      ghost var vals, answer;
      ghost var diskBefore := cache.disk;
      outputs', vals, answer := ProcessChunk(chunk, lang, outputs);
      chunks', answers', valss' := chunks + [chunk], answers + [answer], valss + [vals];
      BatchesAtStep(order, lang, off, end, outputs, chunks, answers, valss, d0, s0, b0, bs0, S0, disk0,
                    cache.path, dBefore, diskBefore, scBefore, sBefore, bBefore, bsBefore,
                    chunk, answer, vals, outputs', cache.data, cache.disk,
                    single.script, single.sent, batch.script, batch.sent);
    }

    /**
     * The chunk loop of `translate_many`: `uniq_texts` in slices of
     * `batch_size`, each sent as one batch request (see `ProcessChunk`), with
     * the cache file written after each chunk.
     */
    method Batches(order: seq<string>, lang: string)
      returns (outputs: map<string, string>, ghost chunks: seq<seq<string>>,
               ghost answers: seq<Option<seq<string>>>, ghost valss: seq<seq<string>>)
      requires Valid() && Distinct(order)
      requires forall u :: u in order ==> !PassThrough(u) && u !in cache.data
      modifies cache, single, batch
      ensures chunks == Chunks(order, batchSize)
      ensures BatchesInv(order, lang, |order|, outputs, chunks, answers, valss,
                         old(cache.data), old(single.sent), old(batch.script), old(batch.sent), old(single.script), old(cache.disk))
      ensures cache.loaded == old(cache.loaded)
    {
      ghost var d0, s0, b0, bs0, S0, disk0 := cache.data, single.sent, batch.script, batch.sent, single.script, cache.disk;
      outputs, chunks, answers, valss := map[], [], [], [];
      var off := 0;
      BatchesStart(order, lang, d0, s0, b0, bs0, S0);
      while off < |order|
        invariant BatchesInv(order, lang, off, outputs, chunks, answers, valss, d0, s0, b0, bs0, S0, disk0)
        invariant cache.loaded == old(cache.loaded)
        decreases |order| - off
      {
        off, outputs, chunks, answers, valss := BatchOne(order, lang, off, outputs, chunks, answers, valss, d0, s0, b0, bs0, S0, disk0);
      }
      BatchesEnd(order, chunks);
    }

    /** Before the chunk loop nothing is done. */
    lemma BatchesStart(order: seq<string>, lang: string, d0: map<string, string>, s0: seq<SingleRequest>,
                       b0: seq<Reply<seq<string>>>, bs0: seq<BatchRequest>, S0: seq<Reply<string>>)
      requires batchSize >= 1 && Distinct(order)
      requires forall u :: u in order ==> !PassThrough(u) && u !in d0
      ensures BatchesState(order, lang, 0, map[], [], [], [], d0, s0, b0, bs0, d0, s0, b0, bs0)
      ensures SinglesSoFar(lang, [], [], [], S0, s0, S0, s0)
    {
      assert order[..0] == [] && order[0..] == order;
      assert s0[..|s0|] == s0 && s0 + [] == s0;
      assert forall k :: 0 <= k < |order| ==> order[k] in order;
    }

    /** After the chunk loop the chunks sent are all the chunks. */
    lemma BatchesEnd(order: seq<string>, chunks: seq<seq<string>>)
      requires ChunksSoFar(order, |order|, chunks)
      ensures chunks == Chunks(order, batchSize)
    {
      assert order[|order|..] == [];
    }

    /** `outputs_for_uniq.get(src, src)` */
    function Lookup(outputs: map<string, string>, src: string): (r: string)
      ensures src in outputs ==> r == outputs[src]
      ensures src !in outputs ==> r == src
    {
      if src in outputs then outputs[src] else src
    }

    /** The result at position `i` once the positions of the strings in `done` are filled in. */
    ghost function FilledAt(texts: seq<string>, results: seq<Option<string>>, outputs: map<string, string>,
                            done: seq<string>, i: int): Option<string>
      requires 0 <= i < |results| && i < |texts|
    {
      if results[i].None? && texts[i] in done then Some(Lookup(outputs, texts[i])) else results[i]
    }

    lemma PositionOf(texts: seq<string>, results: seq<Option<string>>, order: seq<string>,
                     positions: map<string, seq<nat>>, u: string, q: nat)
      requires Positioned(texts, results, order, positions) && u in positions && q < |positions[u]|
      ensures positions[u][q] < |results| && positions[u][q] < |texts|
      ensures texts[positions[u][q]] == u && results[positions[u][q]].None?
    {
    }

    /**
     * The last pass of `translate_many`: every position of every key of
     * `uniq_map` gets that key's result, then a missing result becomes "".
     */
    method FanOut(texts: seq<string>, results: seq<Option<string>>, order: seq<string>,
                  positions: map<string, seq<nat>>, outputs: map<string, string>)
      returns (outs: seq<string>)
      requires |results| == |texts| && Positioned(texts, results, order, positions)
      ensures |outs| == |texts|
      ensures forall i :: 0 <= i < |texts| ==> outs[i] == if results[i].Some? then results[i].value else Lookup(outputs, texts[i])
    {
      var res := results;
      var m := 0;
      while m < |order|
        invariant 0 <= m <= |order| && |res| == |results|
        invariant forall i :: 0 <= i < |res| ==> res[i] == FilledAt(texts, results, outputs, order[..m], i)
      {
        var src := order[m];
        var ps := positions[src];
        var out := Lookup(outputs, src);
        var q := 0;
        while q < |ps|
          invariant 0 <= q <= |ps| && |res| == |results|
          invariant forall i :: 0 <= i < |res| ==>
            res[i] == if results[i].None? && i in ps[..q] then Some(out) else FilledAt(texts, results, outputs, order[..m], i)
        {
          var p := ps[q];
          PositionOf(texts, results, order, positions, src, q);
          res := res[p := Some(out)];
          assert ps[..q + 1] == ps[..q] + [p];
          q := q + 1;
        }
        assert ps[..q] == ps;
        assert order[..m + 1] == order[..m] + [src];
        forall i | 0 <= i < |res|
          ensures res[i] == FilledAt(texts, results, outputs, order[..m + 1], i)
        {
          if results[i].None? && texts[i] == src {
            assert i in positions[texts[i]];
          }
        }
        m := m + 1;
      }
      forall i | 0 <= i < |res|
        ensures res[i] == if results[i].Some? then results[i] else Some(Lookup(outputs, texts[i]))
      {
        assert order[..m] == order;
      }
      outs := seq(|res|, i requires 0 <= i < |res| => res[i].GetOr(""));
    }

    /** Neither pass sends a pass-through string or a string cached at the start. */
    lemma FreshAfterBatches(s0: seq<SingleRequest>, s1: seq<SingleRequest>, s2: seq<SingleRequest>,
                            order: seq<string>, lang: string, c0: map<string, string>)
      requires |s0| <= |s1|
      requires forall k :: |s0| <= k < |s1| ==> !PassThrough(s1[k].0) && s1[k].0 !in c0
      requires SingleLog(s1, s2, order, lang)
      requires forall u :: u in order ==> !PassThrough(u) && u !in c0
      ensures forall k :: |s0| <= k < |s2| ==> !PassThrough(s2[k].0) && s2[k].0 !in c0
    {
      forall k | |s0| <= k < |s2|
        ensures !PassThrough(s2[k].0) && s2[k].0 !in c0
      {
        if k < |s1| {
          assert s2[k] == s2[..|s1|][k];
        }
      }
    }

    /** The results of `translate_many`, position by position, from the three passes. */
    lemma ManyOutputs(texts: seq<string>, results: seq<Option<string>>, order: seq<string>,
                      positions: map<string, seq<nat>>, outputs: map<string, string>, outs: seq<string>,
                      c0: map<string, string>)
      requires ClassifyState(texts, |texts|, results, order, positions, c0)
      requires order == UniqueBatched(texts, c0)
      requires forall u :: u in outputs <==> u in order
      requires strict ==> forall u :: u in outputs ==> TokensKeptFor(outputs, u)
      requires |outs| == |texts|
      requires forall i :: 0 <= i < |texts| ==> outs[i] == if results[i].Some? then results[i].value else Lookup(outputs, texts[i])
      ensures forall i :: 0 <= i < |texts| && PassThrough(texts[i]) ==> outs[i] == texts[i]
      ensures forall i :: 0 <= i < |texts| && !PassThrough(texts[i]) && texts[i] in c0 ==> outs[i] == c0[texts[i]]
      ensures forall i :: 0 <= i < |texts| && Batched(texts[i], c0) ==> texts[i] in outputs && outs[i] == outputs[texts[i]]
      ensures strict ==> forall i :: 0 <= i < |texts| && !PassThrough(texts[i]) && texts[i] !in c0 ==> TokensKeptAt(texts, outs, i)
    {
      UniqueBatchedSpec(texts, c0);
      forall i | 0 <= i < |texts|
        ensures PassThrough(texts[i]) ==> outs[i] == texts[i]
        ensures !PassThrough(texts[i]) && texts[i] in c0 ==> outs[i] == c0[texts[i]]
        ensures Batched(texts[i], c0) ==> texts[i] in outputs && outs[i] == outputs[texts[i]]
        ensures strict && !PassThrough(texts[i]) && texts[i] !in c0 ==> TokensKeptAt(texts, outs, i)
      {
        assert ClassifiedAt(texts[i], results[i], c0);
        if Batched(texts[i], c0) && strict {
          assert TokensKeptFor(outputs, texts[i]);
        }
      }
    }

    /** The cache after `translate_many`: old entries stay, new ones are results `Stores` accepts. */
    lemma ManyCache(texts: seq<string>, order: seq<string>, outputs: map<string, string>, vals: seq<string>,
                    c0: map<string, string>, d1: map<string, string>, d2: map<string, string>)
      requires Grown(c0, d1, texts)
      requires order == UniqueBatched(texts, c0)
      requires |vals| == |order| && d2 == Record(d1, order, vals)
      requires forall u :: u in outputs <==> u in order
      requires forall m :: 0 <= m < |order| ==> outputs[order[m]] == vals[m]
      requires strict ==> forall u :: u in outputs ==> TokensKeptFor(outputs, u)
      ensures forall k :: k in c0 ==> k in d2 && d2[k] == c0[k]
      ensures forall k :: k in d2 && k !in c0 ==>
        k in texts && !PassThrough(k) && Stores(k, d2[k]) && (strict ==> SameTokens(k, d2[k]))
      ensures forall u :: u in outputs ==> (u in d2 <==> Stores(u, outputs[u])) && (u in d2 ==> d2[u] == outputs[u])
    {
      UniqueBatchedSpec(texts, c0);
      RecordSpec(d1, order, vals);
      forall u | u in outputs
        ensures (u in d2 <==> Stores(u, outputs[u])) && (u in d2 ==> d2[u] == outputs[u])
        ensures strict ==> SameTokens(u, outputs[u])
      {
        var m :| 0 <= m < |order| && order[m] == u;
        if strict {
          assert TokensKeptFor(outputs, u);
        }
      }
    }

    /** The results of `translate_many`: one per string, each from the pass that answered it. */
    ghost predicate ManyResults(texts: seq<string>, outs: seq<string>, outputs: map<string, string>, c0: map<string, string>) {
      && |outs| == |texts|
      && (forall i :: 0 <= i < |texts| && PassThrough(texts[i]) ==> outs[i] == texts[i])
      && (forall i :: 0 <= i < |texts| && !PassThrough(texts[i]) && texts[i] in c0 ==> outs[i] == c0[texts[i]])
      && (forall i :: 0 <= i < |texts| && Batched(texts[i], c0) ==> texts[i] in outputs && outs[i] == outputs[texts[i]])
      && (strict ==> forall i :: 0 <= i < |texts| && !PassThrough(texts[i]) && texts[i] !in c0 ==> TokensKeptAt(texts, outs, i))
    }

    /** The batches of `translate_many`: the chunks of the batched strings, each requested in turn and settled. */
    ghost predicate ManyBatches(texts: seq<string>, lang: string, outputs: map<string, string>,
                                chunks: seq<seq<string>>, answers: seq<Option<seq<string>>>, valss: seq<seq<string>>,
                                c0: map<string, string>, from: int,
                                b0: seq<Reply<seq<string>>>, bs0: seq<BatchRequest>,
                                s: seq<SingleRequest>, b: seq<Reply<seq<string>>>, bs: seq<BatchRequest>)
    {
      && batchSize >= 1
      && chunks == Chunks(UniqueBatched(texts, c0), batchSize)
      && |answers| == |chunks| && |valss| == |chunks|
      && Chain(b0, |chunks|, maxAttempts) == (answers, b)
      && bs == bs0 + BatchLog(b0, chunks, lang, maxAttempts)
      && (forall c :: 0 <= c < |chunks| ==> ChunkDone(chunks[c], answers[c], valss[c], outputs, s, from, lang))
    }

    /** What `translate_many` did to the single-string endpoint and to the cache. */
    ghost predicate ManyEffects(texts: seq<string>, lang: string, outputs: map<string, string>, c0: map<string, string>,
                                s0: seq<SingleRequest>, d: map<string, string>, s: seq<SingleRequest>)
    {
      && SingleLog(s0, s, texts, lang)
      && (forall k :: |s0| <= k < |s| ==> !PassThrough(s[k].0) && s[k].0 !in c0)
      && (forall k :: k in c0 ==> k in d && d[k] == c0[k])
      && (forall k :: k in d && k !in c0 ==>
            k in texts && !PassThrough(k) && Stores(k, d[k]) && (strict ==> SameTokens(k, d[k])))
      && (forall u :: u in outputs ==> (u in d <==> Stores(u, outputs[u])) && (u in d ==> d[u] == outputs[u]))
    }

    /** What `translate_many` promises, given the state before it (`c0`, `s0`, `b0`, `bs0`) and after it. */
    ghost predicate ManyState(texts: seq<string>, lang: string, outs: seq<string>, outputs: map<string, string>,
                              chunks: seq<seq<string>>, answers: seq<Option<seq<string>>>, valss: seq<seq<string>>,
                              c0: map<string, string>, s0: seq<SingleRequest>,
                              b0: seq<Reply<seq<string>>>, bs0: seq<BatchRequest>,
                              d: map<string, string>, s: seq<SingleRequest>,
                              b: seq<Reply<seq<string>>>, bs: seq<BatchRequest>)
    {
      && ManyResults(texts, outs, outputs, c0)
      && ManyBatches(texts, lang, outputs, chunks, answers, valss, c0, |s0|, b0, bs0, s, b, bs)
      && ManyEffects(texts, lang, outputs, c0, s0, d, s)
    }

    /**
     * What `translate_many` did with the single-string endpoint, which started
     * with the replies `S0` and the log `s0`: the complex strings of the first
     * pass (`firsts`) and then the strings of each chunk whose batch answer was
     * not usable were translated by one run of calls, which left the replies
     * `script` and the log `sent`. Every complex string not cached at the
     * start has as its result the result of one of those calls, and every
     * chunk that fell back has its own segment of the run.
     */
    ghost predicate ManySingles(texts: seq<string>, lang: string, outs: seq<string>,
                                chunks: seq<seq<string>>, answers: seq<Option<seq<string>>>, valss: seq<seq<string>>,
                                c0: map<string, string>, s0: seq<SingleRequest>, S0: seq<Reply<string>>,
                                firsts: seq<string>, script: seq<Reply<string>>, sent: seq<SingleRequest>)
    {
      && |answers| == |chunks| && |valss| == |chunks| && |outs| == |texts|
      && (forall k :: 0 <= k < |firsts| ==> firsts[k] in texts && ComplexFresh(firsts[k], c0))
      && var asked := firsts + Fallens(chunks, answers);
         && SingleRun(S0, asked).1 == script
         && sent == s0 + SingleSent(S0, asked, lang)
         && (forall i :: 0 <= i < |texts| && ComplexFresh(texts[i], c0) ==>
               SingleAnswer(texts[i], outs[i], asked, SingleRun(S0, asked).0))
         && (forall c :: 0 <= c < |chunks| ==>
               ChunkSingles(chunks[c], answers[c], valss[c], asked, SingleRun(S0, asked).0))
    }

    /** The single-string run of `translate_many`: the first pass's calls, then the chunk loop's. */
    lemma ManySinglesJoin(texts: seq<string>, lang: string, outs: seq<string>, results: seq<Option<string>>,
                          chunks: seq<seq<string>>, answers: seq<Option<seq<string>>>, valss: seq<seq<string>>,
                          c0: map<string, string>, s0: seq<SingleRequest>, S0: seq<Reply<string>>, firsts: seq<string>,
                          S1: seq<Reply<string>>, s1: seq<SingleRequest>, script: seq<Reply<string>>, sent: seq<SingleRequest>)
      requires SingleRun(S0, firsts).1 == S1 && s1 == s0 + SingleSent(S0, firsts, lang)
      requires forall k :: 0 <= k < |firsts| ==> firsts[k] in texts && ComplexFresh(firsts[k], c0)
      requires ComplexAnswered(texts, results, c0, firsts, SingleRun(S0, firsts).0)
      requires |results| == |texts| && |outs| == |texts|
      requires forall i :: 0 <= i < |texts| && results[i].Some? ==> outs[i] == results[i].value
      requires SinglesSoFar(lang, chunks, answers, valss, S1, s1, script, sent)
      ensures ManySingles(texts, lang, outs, chunks, answers, valss, c0, s0, S0, firsts, script, sent)
    {
      var F := Fallens(chunks, answers);
      var singles, more := SingleRun(S0, firsts).0, SingleRun(S1, F).0;
      SingleRunAppend(S0, firsts, F);
      SingleSentAppend(S0, firsts, F, lang);
      AppendAssoc(s0, SingleSent(S0, firsts, lang), SingleSent(S1, F, lang));
      FirstsAnswered(texts, outs, results, c0, firsts, singles, F, more);
      LaterSegments(chunks, answers, valss, firsts, singles, F, more);
    }

    /** The first pass's answers are answers of the whole run. */
    lemma FirstsAnswered(texts: seq<string>, outs: seq<string>, results: seq<Option<string>>, c0: map<string, string>,
                         firsts: seq<string>, singles: seq<string>, more: seq<string>, moreS: seq<string>)
      requires ComplexAnswered(texts, results, c0, firsts, singles) && |firsts| == |singles|
      requires |results| == |texts| && |outs| == |texts|
      requires forall i :: 0 <= i < |texts| && results[i].Some? ==> outs[i] == results[i].value
      ensures forall i :: 0 <= i < |texts| && ComplexFresh(texts[i], c0) ==>
        SingleAnswer(texts[i], outs[i], firsts + more, singles + moreS)
    {
      ComplexAnsweredGrow(texts, results, c0, firsts, singles, more, moreS);
    }

    /** The chunk loop's segments, shifted past the first pass's calls. */
    lemma LaterSegments(chunks: seq<seq<string>>, answers: seq<Option<seq<string>>>, valss: seq<seq<string>>,
                        firsts: seq<string>, singles: seq<string>, asked: seq<string>, got: seq<string>)
      requires |answers| == |chunks| && |valss| == |chunks| && |firsts| == |singles| && |asked| == |got|
      requires forall c :: 0 <= c < |chunks| ==> ChunkSingles(chunks[c], answers[c], valss[c], asked, got)
      ensures forall c :: 0 <= c < |chunks| ==> ChunkSingles(chunks[c], answers[c], valss[c], firsts + asked, singles + got)
    {
      assert firsts + asked + [] == firsts + asked && singles + got + [] == singles + got;
      forall c | 0 <= c < |chunks| && !Usable(answers[c], chunks[c])
        ensures FellBack(chunks[c], valss[c], firsts + asked, singles + got)
      {
        assert ChunkSingles(chunks[c], answers[c], valss[c], asked, got);
        FellBackWithin(chunks[c], valss[c], asked, got, firsts, singles, [], []);
      }
    }

    /** `translate_many` when the first pass answered every string. */
    lemma EarlyState(texts: seq<string>, lang: string, results: seq<Option<string>>, order: seq<string>,
                     positions: map<string, seq<nat>>, outs: seq<string>,
                     c0: map<string, string>, s0: seq<SingleRequest>, b0: seq<Reply<seq<string>>>, bs0: seq<BatchRequest>,
                     d1: map<string, string>, s1: seq<SingleRequest>)
      requires batchSize >= 1
      requires ClassifyState(texts, |texts|, results, order, positions, c0) && order == UniqueBatched(texts, c0)
      requires Grown(c0, d1, texts) && SingleLog(s0, s1, texts, lang)
      requires forall k :: |s0| <= k < |s1| ==> !PassThrough(s1[k].0) && s1[k].0 !in c0
      requires order == []
      requires outs == seq(|results|, i requires 0 <= i < |results| => results[i].GetOr(""))
      ensures ManyState(texts, lang, outs, map[], [], [], [], c0, s0, b0, bs0, d1, s1, b0, bs0)
    {
      UniqueBatchedSpec(texts, c0);
      forall i | 0 <= i < |texts|
        ensures results[i].Some? && outs[i] == results[i].value
      {
        assert texts[i] in texts;
        assert ClassifiedAt(texts[i], results[i], c0);
      }
      ManyOutputs(texts, results, order, positions, map[], outs, c0);
      assert Record(d1, order, []) == d1;
      ManyCache(texts, order, map[], [], c0, d1, d1);
    }

    /** `translate_many` after the chunk loop and the fan-out. */
    lemma LateState(texts: seq<string>, lang: string, results: seq<Option<string>>, order: seq<string>,
                    positions: map<string, seq<nat>>, outs: seq<string>, outputs: map<string, string>,
                    chunks: seq<seq<string>>, answers: seq<Option<seq<string>>>, valss: seq<seq<string>>,
                    c0: map<string, string>, s0: seq<SingleRequest>, b0: seq<Reply<seq<string>>>, bs0: seq<BatchRequest>,
                    d1: map<string, string>, s1: seq<SingleRequest>,
                    d: map<string, string>, s: seq<SingleRequest>, b: seq<Reply<seq<string>>>, bs: seq<BatchRequest>)
      requires batchSize >= 1
      requires ClassifyState(texts, |texts|, results, order, positions, c0) && order == UniqueBatched(texts, c0)
      requires Grown(c0, d1, texts) && SingleLog(s0, s1, texts, lang)
      requires forall k :: |s0| <= k < |s1| ==> !PassThrough(s1[k].0) && s1[k].0 !in c0
      requires chunks == Chunks(order, batchSize)
      requires BatchesState(order, lang, |order|, outputs, chunks, answers, valss, d1, s1, b0, bs0, d, s, b, bs)
      requires |outs| == |texts|
      requires forall i :: 0 <= i < |texts| ==> outs[i] == if results[i].Some? then results[i].value else Lookup(outputs, texts[i])
      ensures ManyState(texts, lang, outs, outputs, chunks, answers, valss, c0, s0, b0, bs0, d, s, b, bs)
    {
      UniqueBatchedSpec(texts, c0);
      assert order[..|order|] == order;
      ManyOutputs(texts, results, order, positions, outputs, outs, c0);
      ManyCache(texts, order, outputs, Flatten(valss), c0, d1, d);
      forall c | 0 <= c < |chunks|
        ensures ChunkDone(chunks[c], answers[c], valss[c], outputs, s, |s0|, lang)
      {
        ChunkDoneFrom(chunks[c], answers[c], valss[c], outputs, s, |s0|, |s1|, lang);
      }
      SingleLogTrans(s0, s1, s, texts, order, lang);
      FreshAfterBatches(s0, s1, s, order, lang, c0);
    }

    /** The chunk loop and the fan-out of `translate_many`, once some string is left for the batches. */
    method BatchPhase(texts: seq<string>, lang: string, results: seq<Option<string>>, order: seq<string>,
                      positions: map<string, seq<nat>>,
                      ghost c0: map<string, string>, ghost s0: seq<SingleRequest>, ghost disk0: Disk)
      returns (outs: seq<string>, ghost outputs: map<string, string>, ghost chunks: seq<seq<string>>,
               ghost answers: seq<Option<seq<string>>>, ghost valss: seq<seq<string>>)
      requires Valid() && order != []
      requires ClassifyState(texts, |texts|, results, order, positions, c0) && order == UniqueBatched(texts, c0)
      requires Grown(c0, cache.data, texts) && SingleLog(s0, single.sent, texts, lang)
      requires forall k :: |s0| <= k < |single.sent| ==> !PassThrough(single.sent[k].0) && single.sent[k].0 !in c0
      requires DiskCurrent(disk0)
      modifies cache, single, batch
      ensures ManyState(texts, lang, outs, outputs, chunks, answers, valss, c0, s0, old(batch.script), old(batch.sent),
                        cache.data, single.sent, batch.script, batch.sent)
      ensures SinglesSoFar(lang, chunks, answers, valss, old(single.script), old(single.sent), single.script, single.sent)
      ensures forall i :: 0 <= i < |texts| && results[i].Some? ==> outs[i] == results[i].value
      ensures DiskCurrent(disk0)
      ensures cache.loaded == old(cache.loaded)
    {
      ghost var d1, s1, b0, bs0, disk1 := cache.data, single.sent, batch.script, batch.sent, cache.disk;
      UniqueBatchedSpec(texts, c0);
      forall u | u in order
        ensures !PassThrough(u) && u !in cache.data
      {
      }
      var outputsForUniq;
      outputsForUniq, chunks, answers, valss := Batches(order, lang);
      outs := FanOut(texts, results, order, positions, outputsForUniq);
      outputs := outputsForUniq;
      LateState(texts, lang, results, order, positions, outs, outputs, chunks, answers, valss, c0, s0, b0, bs0,
                d1, s1, cache.data, single.sent, batch.script, batch.sent);
    }

    /**
     * `translate_many(texts)`: one result per string, in order. Pass-through
     * strings come back as they are and cached ones from the cache; complex
     * strings go through `translate`; the remaining strings are translated
     * once each, in chunks of `batchSize` (see `Batches`), and every position
     * of a string gets that string's result. The single-string requests (the
     * complex strings of the first pass, then the strings of every chunk
     * whose batch failed) form one run of `translate` calls over the single
     * endpoint's replies (`ManySingles`): each such result is the validated
     * reply of its own call, and the endpoint is left as that run leaves it.
     */
    method TranslateMany(texts: seq<string>, lang: string)
      returns (outs: seq<string>, ghost outputs: map<string, string>, ghost chunks: seq<seq<string>>,
               ghost answers: seq<Option<seq<string>>>, ghost valss: seq<seq<string>>, ghost firsts: seq<string>)
      requires Valid()
      modifies cache, single, batch
      ensures ManyState(texts, lang, outs, outputs, chunks, answers, valss,
                        old(cache.data), old(single.sent), old(batch.script), old(batch.sent),
                        cache.data, single.sent, batch.script, batch.sent)
      ensures ManySingles(texts, lang, outs, chunks, answers, valss, old(cache.data), old(single.sent), old(single.script),
                          firsts, single.script, single.sent)
      ensures DiskCurrent(old(cache.disk))
      ensures cache.loaded == old(cache.loaded)
    {
      ghost var c0, s0, S0, disk0 := cache.data, single.sent, single.script, cache.disk;
      var results, order, positions;
      results, order, positions, firsts := Classify(texts, lang);
      ghost var S1, s1 := single.script, single.sent;
      // `if not uniq_map`: the map is empty exactly when its list of keys is
      if order == [] {
        outs := seq(|results|, i requires 0 <= i < |results| => results[i].GetOr(""));
        outputs, chunks, answers, valss := map[], [], [], [];
        EarlyState(texts, lang, results, order, positions, outs, c0, s0, batch.script, batch.sent, cache.data, single.sent);
        assert SinglesSoFar(lang, [], [], [], S1, s1, S1, s1) by {
          assert s1 + [] == s1;
        }
        ManySinglesJoin(texts, lang, outs, results, [], [], [], c0, s0, S0, firsts, S1, s1, S1, s1);
        return;
      }
      outs, outputs, chunks, answers, valss := BatchPhase(texts, lang, results, order, positions, c0, s0, disk0);
      ManySinglesJoin(texts, lang, outs, results, chunks, answers, valss, c0, s0, S0, firsts, S1, s1,
                      single.script, single.sent);
    }
  }
}
