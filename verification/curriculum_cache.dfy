/**
 * The process-local curriculum cache: a map from key to (data, timestamp), where a read is
 * a hit only while the entry is younger than one hour. The clock reading and the outcome of
 * the fetch function are inputs.
 */
module CurriculumCache {

  /** One hour in milliseconds. */
  const CacheTimeout: int := 60 * 60 * 1000

  datatype Entry = Entry(data: string, timestamp: int)

  type Cache = map<string, Entry>

  /** What the awaited fetch function produces: its text, or the error it throws. */
  datatype Outcome = Value(data: string) | Threw(error: string)

  /** The result of one `getCachedCurriculum` call: what it returns or throws, the cache afterwards, and whether it called the fetch function. */
  datatype Lookup = Lookup(result: Outcome, cache: Cache, fetchCalled: bool)

  /** An entry exists for `key` and its age at `now` is strictly below the timeout. */
  predicate IsFresh(cache: Cache, key: string, now: int)
  {
    key in cache && now - cache[key].timestamp < CacheTimeout
  }

  /**
   * `getCachedCurriculum(key, fetchFunction)` with `Date.now()` read as `now` before the
   * fetch; `fetch` is what the fetch function would produce if it were called.
   */
  function Get(cache: Cache, key: string, now: int, fetch: Outcome): (r: Lookup)
    ensures r.fetchCalled <==> !IsFresh(cache, key, now)
    ensures !r.fetchCalled ==> r.result == Value(cache[key].data) && r.cache == cache
    ensures r.fetchCalled ==> r.result == fetch
    ensures r.fetchCalled && fetch.Value? ==> r.cache == cache[key := Entry(fetch.data, now)]
    ensures fetch.Threw? ==> r.cache == cache
  {
    if IsFresh(cache, key, now) then Lookup(Value(cache[key].data), cache, false)
    else match fetch
      case Value(d) => Lookup(fetch, cache[key := Entry(d, now)], true)
      case Threw(_) => Lookup(fetch, cache, true)
  }

  /** `clearCurriculumCache(key)`: removes exactly that key. */
  function Clear(cache: Cache, key: string): (r: Cache)
    ensures r.Keys == cache.Keys - {key}
    ensures forall k :: k in r ==> r[k] == cache[k]
  {
    cache - {key}
  }

  /** `clearAllCurriculumCache()` */
  function ClearAll(cache: Cache): (r: Cache)
    ensures |r| == 0
  {
    map[]
  }

  /** A get that fetched successfully is followed, strictly within the timeout, by a hit on the same data; from the timeout on, by a new fetch. */
  lemma SecondGet(cache: Cache, key: string, t1: int, t2: int, f1: Outcome, f2: Outcome)
    requires Get(cache, key, t1, f1).fetchCalled && f1.Value?
    ensures var second := Get(Get(cache, key, t1, f1).cache, key, t2, f2);
      && (t2 - t1 < CacheTimeout ==> !second.fetchCalled && second.result == f1)
      && (t2 - t1 >= CacheTimeout ==> second.fetchCalled && second.result == f2)
  {
  }

  /** A hit leaves the stored timestamp alone, so the lifetime counts from the fetch, not from the last read. */
  lemma HitDoesNotRefresh(cache: Cache, key: string, now: int, fetch: Outcome, later: Outcome)
    requires IsFresh(cache, key, now)
    ensures Get(cache, key, now, fetch).cache[key] == cache[key]
    ensures Get(Get(cache, key, now, fetch).cache, key, cache[key].timestamp + CacheTimeout, later).fetchCalled
  {
  }

  /** One step of a sequence of cache calls. */
  datatype Op = GetOp(key: string, now: int, fetch: Outcome) | ClearOp(key: string) | ClearAllOp

  datatype Reply = Served(result: Outcome, fetchCalled: bool) | Cleared

  datatype Trace = Trace(cache: Cache, replies: seq<Reply>)

  /** One call applied to the cache: the cache it leaves and its reply. */
  datatype Step = Step(cache: Cache, reply: Reply)

  function Apply(cache: Cache, op: Op): Step
  {
    match op
    case GetOp(k, now, f) =>
      var l := Get(cache, k, now, f);
      Step(l.cache, Served(l.result, l.fetchCalled))
    case ClearOp(k) => Step(Clear(cache, k), Cleared)
    case ClearAllOp => Step(ClearAll(cache), Cleared)
  }

  /** Runs the calls in order, threading the cache. */
  function Run(cache: Cache, ops: seq<Op>): (t: Trace)
    ensures |t.replies| == |ops|
    // Every get is answered by a get; every clear by `Cleared`.
    ensures forall i {:trigger ops[i]} :: 0 <= i < |ops| ==> (t.replies[i].Served? <==> ops[i].GetOp?)
    // No calls leave the cache as it was; the first call is answered on the cache given.
    ensures |ops| == 0 ==> t.cache == cache
    ensures |ops| > 0 ==> t.replies[0] == Apply(cache, ops[0]).reply
    decreases |ops|
  {
    if |ops| == 0 then Trace(cache, [])
    else
      var step := Apply(cache, ops[0]);
      var rest := Run(step.cache, ops[1..]);
      Trace(rest.cache, [step.reply] + rest.replies)
  }

  /** A non-empty run is its first call followed by the run of the rest on the cache that call leaves. */
  lemma RunCons(cache: Cache, ops: seq<Op>)
    requires |ops| > 0
    ensures var step := Apply(cache, ops[0]);
      var rest := Run(step.cache, ops[1..]);
      Run(cache, ops) == Trace(rest.cache, [step.reply] + rest.replies)
  {
  }

  /** Joining two sequences keeps the first one's head, and the tail of the join is the first one's tail joined to the second. */
  lemma AppendSplitsHead<T>(a: seq<T>, b: seq<T>)
    requires |a| > 0
    ensures (a + b)[0] == a[0] && (a + b)[1..] == a[1..] + b
  {
  }

  lemma ConsAppendAssoc<T>(x: T, r: seq<T>, s: seq<T>)
    ensures [x] + (r + s) == ([x] + r) + s
  {
  }

  /** Running two stretches of calls one after the other is running them together. */
  lemma {:induction false} RunAppend(cache: Cache, a: seq<Op>, b: seq<Op>)
    ensures var first := Run(cache, a);
      var second := Run(first.cache, b);
      Run(cache, a + b) == Trace(second.cache, first.replies + second.replies)
    decreases |a|
  {
    if |a| == 0 {
      assert a + b == b;
    } else {
      var step := Apply(cache, a[0]);
      RunAppend(step.cache, a[1..], b);
      var rest := Run(step.cache, a[1..]);
      var second := Run(rest.cache, b);
      var whole := Run(step.cache, a[1..] + b);
      assert whole == Trace(second.cache, rest.replies + second.replies);
      AppendSplitsHead(a, b);
      RunCons(cache, a + b);
      assert Run(cache, a + b) == Trace(whole.cache, [step.reply] + whole.replies);
      RunCons(cache, a);
      assert Run(cache, a) == Trace(rest.cache, [step.reply] + rest.replies);
      ConsAppendAssoc(step.reply, rest.replies, second.replies);
    }
  }

  /**
   * Each call is answered on the cache that the calls before it left: the i-th reply is the
   * reply of the i-th call applied to the cache after the first i calls.
   */
  lemma ReplyOnThreadedCache(cache: Cache, ops: seq<Op>, i: nat)
    requires i < |ops|
    ensures Run(cache, ops).replies[i] == Apply(Run(cache, ops[..i]).cache, ops[i]).reply
  {
    RunAppend(cache, ops[..i], ops[i..]);
    assert ops[..i] + ops[i..] == ops;
  }

  /** No call in `ops` removes `key` and every get of `key` comes strictly within the timeout of `stamp`. */
  predicate WithinWindow(ops: seq<Op>, key: string, stamp: int)
  {
    forall i :: 0 <= i < |ops| ==>
      match ops[i]
      case GetOp(k, now, _) => k == key ==> now - stamp < CacheTimeout
      case ClearOp(k) => k != key
      case ClearAllOp => false
  }

  /**
   * Within one timeout window of an entry and without invalidation, every get of its key is
   * served from the cache: the fetch function is never called, the stored data is returned,
   * and the entry survives unchanged, whatever other keys are read or cleared meanwhile.
   */
  lemma {:induction false} NoRefetchWithinWindow(cache: Cache, ops: seq<Op>, key: string)
    requires key in cache
    requires WithinWindow(ops, key, cache[key].timestamp)
    ensures key in Run(cache, ops).cache && Run(cache, ops).cache[key] == cache[key]
    ensures forall i :: 0 <= i < |ops| && ops[i].GetOp? && ops[i].key == key ==>
      Run(cache, ops).replies[i] == Served(Value(cache[key].data), false)
    decreases |ops|
  {
    if |ops| > 0 {
      var next := Apply(cache, ops[0]).cache;
      assert WithinWindow(ops[1..], key, cache[key].timestamp) by {
        forall i | 0 <= i < |ops[1..]| ensures ops[1..][i] == ops[i + 1] { }
      }
      assert key in next && next[key] == cache[key];
      NoRefetchWithinWindow(next, ops[1..], key);
      forall i | 1 <= i < |ops| && ops[i].GetOp? && ops[i].key == key
        ensures Run(cache, ops).replies[i] == Served(Value(cache[key].data), false)
      {
        assert ops[1..][i - 1] == ops[i];
      }
    }
  }
}
