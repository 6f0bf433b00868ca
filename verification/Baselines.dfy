/**
 The per-symbol baselines of `app/backtest/research_orchestrator.py`: symbols
 already checkpointed or cached are taken as they are, the others run in a worker
 pool and complete in any order.
 */
module Baselines {
  import opened Market
  import opened Checkpoints
  import Sorting

  /** The memo table of `app/backtest/research_cache.py`. */
  class ResearchReplayCache<V> {
    var values: map<string, V>
    var hits: nat
    var misses: nat

    constructor ()
      ensures values == map[] && hits == 0 && misses == 0
    {
      values, hits, misses := map[], 0, 0;
    }

    method GetOrCompute(key: string, compute: () -> V) returns (value: V)
      modifies this
      ensures (values, value) == Remembered(old(values), key, compute())
      ensures hits + misses == old(hits + misses) + 1
      ensures misses == old(misses) + (if key in old(values) then 0 else 1)
    {
      if key in values {
        hits := hits + 1;
        return values[key];
      }
      misses := misses + 1;
      value := compute();
      values := values[key := value];
    }
  }

  function Remembered<V>(values: map<string, V>, key: string, value: V): (map<string, V>, V) {
    if key in values then (values, values[key]) else (values[key := value], value)
  }

  datatype Request<V> = Request(key: string, value: V)

  /** The table after some requests, and what each of them was answered. */
  function Served<V>(requests: seq<Request<V>>): (r: (map<string, V>, seq<V>))
    ensures |r.1| == |requests|
    decreases |requests|
  {
    if requests == [] then (map[], [])
    else
      var last := requests[|requests| - 1];
      var (values, answers) := Served(requests[..|requests| - 1]);
      var (values', answer) := Remembered(values, last.key, last.value);
      (values', answers + [answer])
  }

  ghost predicate Transparent<V>(requests: seq<Request<V>>) {
    forall i :: 0 <= i < |requests| ==> Served(requests).1[i] == requests[i].value
  }

  ghost predicate KeyDecides<V>(requests: seq<Request<V>>) {
    forall i, j :: 0 <= i < j < |requests| && requests[i].key == requests[j].key ==> requests[i].value == requests[j].value
  }

  /** The table keeps the value of the first request of each key. */
  lemma {:induction false} FirstAnswerStays<V>(requests: seq<Request<V>>, j: nat)
    requires j < |requests|
    ensures requests[j].key in Served(requests).0
    ensures Served(requests).0[requests[j].key] == Served(requests).1[j]
    ensures forall i :: 0 <= i < |requests| && requests[i].key == requests[j].key ==>
              Served(requests).1[i] == Served(requests).1[j]
    decreases |requests|
  {
    var init := requests[..|requests| - 1];
    forall i | 0 <= i < |init|
      ensures init[i].key in Served(init).0 && Served(init).0[init[i].key] == Served(init).1[i]
    {
      FirstAnswerStays(init, i);
    }
    forall i | 0 <= i < |requests|
      ensures requests[i].key in Served(requests).0 && Served(requests).0[requests[i].key] == Served(requests).1[i]
    {
      if i < |init| {
        assert init[i] == requests[i];
      }
    }
  }

  lemma {:induction false} KeysWereAsked<V>(requests: seq<Request<V>>)
    ensures forall key <- Served(requests).0 :: exists i :: 0 <= i < |requests| && requests[i].key == key
    decreases |requests|
  {
    if requests != [] {
      var n := |requests| - 1;
      var init := requests[..n];
      KeysWereAsked(init);
      forall key | key in Served(requests).0 ensures exists i :: 0 <= i < |requests| && requests[i].key == key {
        if key in Served(init).0 {
          var i :| 0 <= i < |init| && init[i].key == key;
          assert requests[i] == init[i];
        }
      }
    }
  }

  lemma {:induction false} AnsweredByEarlier<V>(requests: seq<Request<V>>)
    requires KeyDecides(requests)
    ensures Transparent(requests)
    decreases |requests|
  {
    if requests != [] {
      var n := |requests| - 1;
      var init := requests[..n];
      AnsweredByEarlier(init);
      if requests[n].key in Served(init).0 {
        KeysWereAsked(init);
        var i :| 0 <= i < |init| && init[i].key == requests[n].key;
        FirstAnswerStays(init, i);
        assert requests[i] == init[i];
      }
    }
  }

  /** Caching is invisible if and only if equal keys stand for equal results. */
  lemma CacheIsTransparent<V>(requests: seq<Request<V>>)
    ensures Transparent(requests) <==> KeyDecides(requests)
  {
    if KeyDecides(requests) {
      AnsweredByEarlier(requests);
    } else {
      var i, j :| 0 <= i < j < |requests| && requests[i].key == requests[j].key && requests[i].value != requests[j].value;
      FirstAnswerStays(requests, i);
    }
  }

  // --------------------------------------------------------------- the baselines

  /** The symbols to run, their cache keys, and what a worker gives for each. */
  datatype Job<!V> = Job(symbols: seq<string>, key: string -> string, worker: string -> Result<V>)
  {
    /** Dictionary keys are distinct; the cache key names the symbol. */
    ghost predicate Valid() {
      && (forall i, j :: 0 <= i < j < |symbols| ==> symbols[i] != symbols[j])
      && (forall s <- symbols, t <- symbols :: key(s) == key(t) ==> s == t)
    }

    /** A worker that does not fail gives the value of its symbol. */
    ghost predicate Exact(value: string -> V) {
      forall s <- symbols :: worker(s).Ok? ==> worker(s).value == value(s)
    }
  }

  function UnitOf(symbol: string): Unit {
    Unit("baseline", map["symbol" := symbol, "variant" := "canonical-baseline"])
  }

  lemma UnitsDiffer(s: string, t: string)
    ensures UnitOf(s) == UnitOf(t) ==> s == t
  {
    assert UnitOf(s).parameters["symbol"] == s && UnitOf(t).parameters["symbol"] == t;
  }

  /** The run without workers, cache or checkpoints: each symbol in input order. */
  function Sequential<V>(symbols: seq<string>, value: string -> V): (r: seq<(string, V)>)
    ensures |r| == |symbols| && forall i :: 0 <= i < |r| ==> r[i].0 == symbols[i] && r[i].1 == value(symbols[i])
  {
    seq(|symbols|, i requires 0 <= i < |symbols| => (symbols[i], value(symbols[i])))
  }

  /** The symbols outside `ready` among the first `n`, in order. */
  function NotReady(symbols: seq<string>, ready: set<string>, n: nat): (r: seq<string>)
    requires n <= |symbols|
    ensures forall s <- r :: s in symbols && s !in ready
    ensures forall k :: 0 <= k < n && symbols[k] !in ready ==> symbols[k] in r
  {
    if n == 0 then []
    else NotReady(symbols, ready, n - 1) + (if symbols[n - 1] in ready then [] else [symbols[n - 1]])
  }

  // ------------------------------------------------------------ the optional store

  type Store<V> = Option<ResearchCheckpointStore<V>>

  function Footprint<V>(store: Store<V>): set<object> {
    if store.Some? then {store.value.directory} else {}
  }

  function DiskOf<V>(store: Store<V>): Disk<V>
    reads Footprint(store)
  {
    if store.Some? then store.value.directory.Value() else Disk(map[], map[])
  }

  /** What the identity of the store would load for a symbol. */
  function Checkpointed<V>(store: Store<V>, disk: Disk<V>, symbol: string): Option<V> {
    if store.Some? then Loaded(disk, store.value.identity, UnitOf(symbol)) else None
  }

  function Put<V>(store: Store<V>, disk: Disk<V>, symbol: string, value: V): Disk<V> {
    if store.Some? then
      WithManifest(WithPayload(disk, store.value.identity, UnitOf(symbol), value), store.value.identity, UnitOf(symbol))
    else disk
  }

  lemma PutIsCheckpointed<V>(store: Store<V>, disk: Disk<V>, symbol: string, value: V)
    ensures store.Some? ==> Checkpointed(store, Put(store, disk, symbol, value), symbol) == Some(value)
    ensures forall s :: s != symbol ==>
              Checkpointed(store, Put(store, disk, symbol, value), s) == Checkpointed(store, disk, s)
    ensures store.None? ==> Put(store, disk, symbol, value) == disk
  {
    forall s | s != symbol
      ensures Checkpointed(store, Put(store, disk, symbol, value), s) == Checkpointed(store, disk, s)
    {
      UnitsDiffer(s, symbol);
    }
  }

  /** No checkpoint of these symbols is wrong. */
  ghost predicate StoreSound<V>(store: Store<V>, disk: Disk<V>, symbols: seq<string>, value: string -> V) {
    forall s <- symbols :: Checkpointed(store, disk, s).Some? ==> Checkpointed(store, disk, s).value == value(s)
  }

  ghost predicate CacheSound<V>(values: map<string, V>, job: Job<V>, value: string -> V) {
    forall s <- job.symbols :: job.key(s) in values ==> values[job.key(s)] == value(s)
  }

  /** What is known of a symbol without running it: its checkpoint, else its cached result. */
  function Known<V>(store: Store<V>, disk: Disk<V>, values: map<string, V>, job: Job<V>, symbol: string): Option<V> {
    if store.Some? && store.value.resume && Checkpointed(store, disk, symbol).Some? then Checkpointed(store, disk, symbol)
    else if job.key(symbol) in values then Some(values[job.key(symbol)])
    else None
  }

  /** The disk after that look: a cached result is saved. */
  function Looked<V>(store: Store<V>, disk: Disk<V>, values: map<string, V>, job: Job<V>, symbol: string): Disk<V> {
    if store.Some? && store.value.resume && Checkpointed(store, disk, symbol).Some? then disk
    else if job.key(symbol) in values then Put(store, disk, symbol, values[job.key(symbol)])
    else disk
  }

  /** The look is answered by the cache. */
  predicate IsHit<V>(store: Store<V>, disk: Disk<V>, values: map<string, V>, job: Job<V>, symbol: string) {
    !(store.Some? && store.value.resume && Checkpointed(store, disk, symbol).Some?) && job.key(symbol) in values
  }

  /** How many of the first `n` symbols the cache answers. */
  function HitsAmong<V>(store: Store<V>, disk: Disk<V>, values: map<string, V>, job: Job<V>, n: nat): (hits: nat)
    requires n <= |job.symbols|
  {
    if n == 0 then 0
    else HitsAmong(store, disk, values, job, n - 1) + if IsHit(store, disk, values, job, job.symbols[n - 1]) then 1 else 0
  }

  /** How many of the first `n` symbols a resumed run finds checkpointed. */
  function ResumedAmong<V>(store: Store<V>, disk: Disk<V>, job: Job<V>, n: nat): (found: nat)
    requires n <= |job.symbols|
  {
    if n == 0 then 0
    else ResumedAmong(store, disk, job, n - 1)
         + if store.Some? && store.value.resume && Checkpointed(store, disk, job.symbols[n - 1]).Some? then 1 else 0
  }

  function KnownAmong<V>(store: Store<V>, disk: Disk<V>, values: map<string, V>, job: Job<V>): set<string> {
    set s | s in job.symbols && Known(store, disk, values, job, s).Some?
  }

  /** Results so far are right, and on disk when there is a store. */
  ghost predicate Collected<V>(results: map<string, V>, store: Store<V>, disk: Disk<V>, job: Job<V>, value: string -> V) {
    forall s <- results ::
      && s in job.symbols
      && results[s] == value(s)
      && (store.Some? ==> Checkpointed(store, disk, s) == Some(value(s)))
  }

  /** Saving a right result keeps everything right. */
  lemma CollectOne<V>(results: map<string, V>, store: Store<V>, disk: Disk<V>, job: Job<V>, value: string -> V, symbol: string)
    requires symbol in job.symbols
    requires StoreSound(store, disk, job.symbols, value) && Collected(results, store, disk, job, value)
    ensures var after := Put(store, disk, symbol, value(symbol));
            && StoreSound(store, after, job.symbols, value)
            && Collected(results[symbol := value(symbol)], store, after, job, value)
  {
    PutIsCheckpointed(store, disk, symbol, value(symbol));
    hide Put, Checkpointed;
  }

  /** A look keeps everything right and collects what it finds. */
  lemma LookKeeps<V>(results: map<string, V>, store: Store<V>, disk: Disk<V>, values: map<string, V>,
                     job: Job<V>, value: string -> V, symbol: string)
    requires symbol in job.symbols
    requires StoreSound(store, disk, job.symbols, value) && CacheSound(values, job, value)
    requires Collected(results, store, disk, job, value)
    ensures var found, after := Known(store, disk, values, job, symbol), Looked(store, disk, values, job, symbol);
            && StoreSound(store, after, job.symbols, value)
            && (found.None? ==> after == disk)
            && (found.Some? ==>
                  && found.value == value(symbol)
                  && Collected(results[symbol := found.value], store, after, job, value))
  {
    CollectOne(results, store, disk, job, value, symbol);
    hide Put, Checkpointed;
  }

  /** From the first of these disks to the second, only right results were added. */
  ghost predicate OnlyAdded<V>(store: Store<V>, a: Disk<V>, b: Disk<V>, job: Job<V>, value: string -> V) {
    forall s <- job.symbols ::
      Checkpointed(store, b, s) == Checkpointed(store, a, s) || Checkpointed(store, b, s) == Some(value(s))
  }

  lemma AddOne<V>(store: Store<V>, a: Disk<V>, b: Disk<V>, job: Job<V>, value: string -> V, symbol: string)
    requires OnlyAdded(store, a, b, job, value)
    ensures OnlyAdded(store, a, Put(store, b, symbol, value(symbol)), job, value)
  {
    PutIsCheckpointed(store, b, symbol, value(symbol));
    hide Put, Checkpointed;
  }

  /** The symbols from `i` on load what they loaded at first. */
  ghost predicate SameFrom<V>(store: Store<V>, a: Disk<V>, b: Disk<V>, symbols: seq<string>, i: nat) {
    forall k :: i <= k < |symbols| ==> Checkpointed(store, a, symbols[k]) == Checkpointed(store, b, symbols[k])
  }

  lemma LookIsLocal<V>(store: Store<V>, a: Disk<V>, b: Disk<V>, values: map<string, V>, job: Job<V>, value: string -> V, i: nat)
    requires job.Valid() && i < |job.symbols| && SameFrom(store, a, b, job.symbols, i)
    requires CacheSound(values, job, value) && OnlyAdded(store, a, b, job, value)
    ensures Known(store, a, values, job, job.symbols[i]) == Known(store, b, values, job, job.symbols[i])
    ensures IsHit(store, a, values, job, job.symbols[i]) <==> IsHit(store, b, values, job, job.symbols[i])
    ensures SameFrom(store, a, Looked(store, b, values, job, job.symbols[i]), job.symbols, i + 1)
    ensures OnlyAdded(store, a, Looked(store, b, values, job, job.symbols[i]), job, value)
  {
    PutIsCheckpointed(store, b, job.symbols[i], value(job.symbols[i]));
    AddOne(store, a, b, job, value, job.symbols[i]);
    hide Put, Checkpointed;
  }

  method SaveTo<V>(store: Store<V>, symbol: string, value: V)
    modifies Footprint(store)
    ensures DiskOf(store) == Put(store, old(DiskOf(store)), symbol, value)
  {
    if store.Some? {
      store.value.Save(UnitOf(symbol), value);
    }
  }

  class UnifiedResearchOrchestrator<V> {
    const cache: ResearchReplayCache<V>

    constructor ()
      ensures fresh(cache) && cache.values == map[]
    {
      cache := new ResearchReplayCache();
    }

    /** One symbol of the first pass. */
    method Look(job: Job<V>, store: Store<V>, symbol: string) returns (found: Option<V>)
      modifies Footprint(store), cache`hits
      ensures found == Known(store, old(DiskOf(store)), cache.values, job, symbol)
      ensures DiskOf(store) == Looked(store, old(DiskOf(store)), cache.values, job, symbol)
      ensures cache.hits == old(cache.hits) + (if IsHit(store, old(DiskOf(store)), cache.values, job, symbol) then 1 else 0)
    {
      found := None;
      if store.Some? {
        found := store.value.Load(UnitOf(symbol));
      }
      if found.None? && job.key(symbol) in cache.values {
        cache.hits := cache.hits + 1;
        found := Some(cache.values[job.key(symbol)]);
        SaveTo(store, symbol, found.value);
      }
    }

    /** The first pass: checkpoints, then the cache, then what is left to run. */
    method Gather(job: Job<V>, store: Store<V>, ghost value: string -> V)
        returns (results: map<string, V>, pending: seq<string>)
      requires job.Valid() && StoreSound(store, DiskOf(store), job.symbols, value) && CacheSound(cache.values, job, value)
      modifies Footprint(store), cache`hits
      ensures StoreSound(store, DiskOf(store), job.symbols, value) && Collected(results, store, DiskOf(store), job, value)
      ensures OnlyAdded(store, old(DiskOf(store)), DiskOf(store), job, value)
      ensures pending == NotReady(job.symbols, KnownAmong(store, old(DiskOf(store)), cache.values, job), |job.symbols|)
      ensures Split(results.Keys, pending, job.symbols, |job.symbols|)
      ensures cache.hits == old(cache.hits) + HitsAmong(store, old(DiskOf(store)), cache.values, job, |job.symbols|)
    {
      hide StoreSound, Collected, OnlyAdded, SameFrom, Looked, Known, Checkpointed, KnownAmong, CacheSound, Split, NotReady, IsHit;
      results, pending := map[], [];
      ghost var start, values := DiskOf(store), cache.values;
      ghost var known := KnownAmong(store, start, values, job);
      GatherNothing(job, store, start, value, known);
      assert results.Keys == {};
      for i := 0 to |job.symbols|
        invariant cache.values == values
        invariant StoreSound(store, DiskOf(store), job.symbols, value) && Collected(results, store, DiskOf(store), job, value)
        invariant OnlyAdded(store, start, DiskOf(store), job, value) && SameFrom(store, start, DiskOf(store), job.symbols, i)
        invariant pending == NotReady(job.symbols, known, i)
        invariant cache.hits == old(cache.hits) + HitsAmong(store, start, values, job, i)
        invariant Split(results.Keys, pending, job.symbols, i)
      {
        var symbol := job.symbols[i];
        LookKeeps(results, store, DiskOf(store), values, job, value, symbol);
        LookIsLocal(store, start, DiskOf(store), values, job, value, i);
        GatherNext(job, store, start, values, i, results.Keys, pending);
        var found := Look(job, store, symbol);
        if found.Some? {
          assert results[symbol := found.value].Keys == results.Keys + {symbol};
          results := results[symbol := found.value];
        } else {
          pending := pending + [symbol];
        }
      }
    }

    /** One finished future: the result is remembered, cached and saved; a failure names its symbol. */
    method FinishOne(job: Job<V>, store: Store<V>, symbol: string, results: map<string, V>)
        returns (r: Result<map<string, V>>)
      modifies Footprint(store), cache
      ensures r == Finished(job, results, symbol)
      ensures DiskOf(store) == SavedIfOk(job, store, old(DiskOf(store)), symbol)
      ensures cache.values == CachedIfOk(job, old(cache.values), symbol)
      ensures cache.misses == old(cache.misses) + (if r.Ok? then 1 else 0) && cache.hits == old(cache.hits)
    {
      var outcome := job.worker(symbol);
      if outcome.Raised? {
        return Raised(Failure(symbol, outcome.error));
      }
      cache.misses := cache.misses + 1;
      cache.values := cache.values[job.key(symbol) := outcome.value];
      SaveTo(store, symbol, outcome.value);
      return Ok(results[symbol := outcome.value]);
    }

    /** The futures that finished together, in any order. */
    method FinishBatch(job: Job<V>, store: Store<V>, batch: set<string>, running: set<string>, results: map<string, V>,
                       ghost w: Watch<V>)
        returns (r: Result<map<string, V>>)
      requires job.Valid() && job.Exact(w.value) && batch <= running
      requires Going(job, store, w, results, running, DiskOf(store), cache.values)
      modifies Footprint(store), cache
      ensures r.Ok? ==> Going(job, store, w, r.value, running - batch, DiskOf(store), cache.values)
      ensures r.Ok? ==> cache.misses == old(cache.misses) + |batch|
      ensures cache.hits == old(cache.hits)
      ensures r.Raised? ==> Stopped(job, store, w, r.error, DiskOf(store), cache.values)
    {
      hide Going, Stopped, Finished, SavedIfOk, CachedIfOk;
      var done, remaining, now := batch, running, results;
      while done != {}
        invariant done <= remaining && remaining - done == running - batch
        invariant Going(job, store, w, now, remaining, DiskOf(store), cache.values)
        invariant cache.misses + |done| == old(cache.misses) + |batch| && cache.hits == old(cache.hits)
      {
        var symbol :| symbol in done;
        GoOn(job, store, w, now, remaining, DiskOf(store), cache.values, symbol);
        var finished := FinishOne(job, store, symbol, now);
        if finished.Raised? {
          return Raised(finished.error);
        }
        now := finished.value;
        done, remaining := done - {symbol}, remaining - {symbol};
      }
      assert remaining == running - batch;
      return Ok(now);
    }

    /** The second pass: any non-empty set of the remaining futures may finish next. */
    method Drain(job: Job<V>, store: Store<V>, pending: seq<string>, gathered: map<string, V>, ghost w: Watch<V>)
        returns (r: Result<map<string, V>>)
      requires job.Valid() && job.Exact(w.value) && w.pending == pending
      requires Going(job, store, w, gathered, (set s | s in pending), DiskOf(store), cache.values)
      modifies Footprint(store), cache
      ensures r.Ok? ==> Going(job, store, w, r.value, {}, DiskOf(store), cache.values)
      ensures r.Ok? ==> cache.misses == old(cache.misses) + |set s | s in pending|
      ensures cache.hits == old(cache.hits)
      ensures r.Raised? ==> Stopped(job, store, w, r.error, DiskOf(store), cache.values)
    {
      hide Going, Stopped;
      var results := gathered;
      var remaining := set s | s in pending;
      ghost var all := remaining;
      while remaining != {}
        invariant Going(job, store, w, results, remaining, DiskOf(store), cache.values)
        invariant cache.misses + |remaining| == old(cache.misses) + |all| && cache.hits == old(cache.hits)
        decreases remaining
      {
        var some :| some in remaining;
        var done: set<string> :| done <= remaining && done != {} by {
          assert {some} <= remaining;
        }
        r := FinishBatch(job, store, done, remaining, results, w);
        if r.Raised? {
          return;
        }
        results := r.value;
        assert |remaining| == |remaining - done| + |done|;
        remaining := remaining - done;
      }
      return Ok(results);
    }

    /**
     All baselines.  Whatever the completion order and whatever was already known,
     a run in which no worker fails returns the sequential results.
     */
    method RunSymbolBaselines(job: Job<V>, store: Store<V>, ghost value: string -> V)
        returns (r: Result<seq<(string, V)>>, launched: seq<string>)
      requires job.Valid() && job.Exact(value)
      requires StoreSound(store, DiskOf(store), job.symbols, value) && CacheSound(cache.values, job, value)
      modifies Footprint(store), cache
      ensures launched == NotReady(job.symbols, KnownAmong(store, old(DiskOf(store)), old(cache.values), job), |job.symbols|)
      ensures r.Ok? <==> forall s <- launched :: job.worker(s).Ok?
      ensures r.Ok? ==> r.value == Sequential(job.symbols, value)
      ensures r.Raised? ==> exists s <- launched ::
                job.worker(s).Raised? && r.error == "baseline validation failed for " + s + ": " + job.worker(s).error
      ensures StoreSound(store, DiskOf(store), job.symbols, value) && CacheSound(cache.values, job, value)
      ensures OnlyAdded(store, old(DiskOf(store)), DiskOf(store), job, value)
      ensures r.Ok? && store.Some? ==> forall s <- job.symbols :: Checkpointed(store, DiskOf(store), s) == Some(value(s))
      ensures forall i, j :: 0 <= i < j < |launched| ==> launched[i] != launched[j]
      ensures r.Ok? ==> cache.misses == old(cache.misses) + |launched|
      ensures cache.hits == old(cache.hits) + HitsAmong(store, old(DiskOf(store)), old(cache.values), job, |job.symbols|)
    {
      hide StoreSound, OnlyAdded, CacheSound, Split, NotReady, KnownAmong, Checkpointed;
      var results, pending := Gather(job, store, value);
      launched := pending;
      ghost var known := KnownAmong(store, old(DiskOf(store)), old(cache.values), job);
      forall i, j | 0 <= i < j < |pending| ensures pending[i] != pending[j] {
        PendingOnce(job, known, |job.symbols|, i, j);
      }
      DistinctCount(pending);
      ghost var w := Watch(value, pending, old(DiskOf(store)));
      DrainStarts(job, store, w, results, DiskOf(store), cache.values);
      var drained := Drain(job, store, pending, results, w);
      if drained.Raised? {
        return Raised(drained.error), launched;
      }
      var all := drained.value;
      DrainEnds(job, store, w, all, DiskOf(store), cache.values);
      assert forall i :: 0 <= i < |job.symbols| ==> job.symbols[i] in job.symbols && job.symbols[i] in all;
      var inOrder := seq(|job.symbols|, i requires 0 <= i < |job.symbols| && job.symbols[i] in all =>
        (job.symbols[i], all[job.symbols[i]]));
      return Ok(inOrder), launched;
    }
  }

  function Failure(symbol: string, error: string): string {
    "baseline validation failed for " + symbol + ": " + error
  }

  function Finished<V>(job: Job<V>, results: map<string, V>, symbol: string): Result<map<string, V>> {
    match job.worker(symbol)
    case Raised(e) => Raised(Failure(symbol, e))
    case Ok(v) => Ok(results[symbol := v])
  }

  function SavedIfOk<V>(job: Job<V>, store: Store<V>, disk: Disk<V>, symbol: string): Disk<V> {
    if job.worker(symbol).Ok? then Put(store, disk, symbol, job.worker(symbol).value) else disk
  }

  function CachedIfOk<V>(job: Job<V>, values: map<string, V>, symbol: string): map<string, V> {
    if job.worker(symbol).Ok? then values[job.key(symbol) := job.worker(symbol).value] else values
  }

  /** What a second pass is measured against: true values, pending symbols, and the disk before the run. */
  datatype Watch<!V> = Watch(value: string -> V, pending: seq<string>, start: Disk<V>)

  /** Every symbol has a result or is still running, and every finished pending one succeeded. */
  ghost predicate Covered<V>(done: set<string>, remaining: set<string>, pending: seq<string>, job: Job<V>) {
    && (forall s <- job.symbols :: s in done || s in remaining)
    && (forall s <- done :: s in job.symbols)
    && (forall s <- remaining :: s in pending && s in job.symbols)
    && (forall s <- pending :: s !in remaining ==> job.worker(s).Ok?)
  }

  ghost predicate AllSound<V>(job: Job<V>, store: Store<V>, w: Watch<V>, disk: Disk<V>, values: map<string, V>) {
    StoreSound(store, disk, job.symbols, w.value) && CacheSound(values, job, w.value)
    && OnlyAdded(store, w.start, disk, job, w.value)
  }

  /** The invariant of the second pass. */
  ghost predicate Going<V>(job: Job<V>, store: Store<V>, w: Watch<V>, results: map<string, V>, remaining: set<string>,
                           disk: Disk<V>, values: map<string, V>)
  {
    && AllSound(job, store, w, disk, values)
    && Collected(results, store, disk, job, w.value)
    && Covered(results.Keys, remaining, w.pending, job)
  }

  /** A worker failed: its symbol is named, and everything kept is still right. */
  ghost predicate Stopped<V>(job: Job<V>, store: Store<V>, w: Watch<V>, error: string, disk: Disk<V>, values: map<string, V>) {
    && AllSound(job, store, w, disk, values)
    && exists s <- w.pending :: job.worker(s).Raised? && error == Failure(s, job.worker(s).error)
  }

  lemma GoOn<V>(job: Job<V>, store: Store<V>, w: Watch<V>, results: map<string, V>, remaining: set<string>,
                disk: Disk<V>, values: map<string, V>, symbol: string)
    requires job.Valid() && job.Exact(w.value) && symbol in remaining
    requires Going(job, store, w, results, remaining, disk, values)
    ensures var r := Finished(job, results, symbol);
            var disk', values' := SavedIfOk(job, store, disk, symbol), CachedIfOk(job, values, symbol);
            && (r.Ok? ==> Going(job, store, w, r.value, remaining - {symbol}, disk', values'))
            && (r.Raised? ==> Stopped(job, store, w, r.error, disk', values'))
  {
    assert symbol in job.symbols && symbol in w.pending;
    CollectOne(results, store, disk, job, w.value, symbol);
    AddOne(store, w.start, disk, job, w.value, symbol);
    hide StoreSound, Collected, OnlyAdded, Put, CacheSound, Covered;
    if job.worker(symbol).Ok? {
      assert results[symbol := w.value(symbol)].Keys == results.Keys + {symbol};
      CoverOne(results.Keys, remaining, w.pending, job, symbol);
      CacheOne(values, job, w.value, symbol);
    }
  }

  lemma CoverOne<V>(done: set<string>, remaining: set<string>, pending: seq<string>, job: Job<V>, symbol: string)
    requires Covered(done, remaining, pending, job) && symbol in remaining && job.worker(symbol).Ok?
    ensures Covered(done + {symbol}, remaining - {symbol}, pending, job)
  {
  }

  lemma CacheOne<V>(values: map<string, V>, job: Job<V>, value: string -> V, symbol: string)
    requires job.Valid() && symbol in job.symbols && CacheSound(values, job, value)
    ensures CacheSound(values[job.key(symbol) := value(symbol)], job, value)
  {
  }

  lemma {:induction false} PendingFrom(symbols: seq<string>, known: set<string>, n: nat, i: nat) returns (k: nat)
    requires n <= |symbols| && i < |NotReady(symbols, known, n)|
    ensures k < n && symbols[k] == NotReady(symbols, known, n)[i]
  {
    if i < |NotReady(symbols, known, n - 1)| {
      k := PendingFrom(symbols, known, n - 1, i);
    } else {
      k := n - 1;
    }
  }

  /** Nothing is run twice. */
  lemma {:induction false} PendingOnce<V>(job: Job<V>, known: set<string>, n: nat, i: nat, j: nat)
    requires job.Valid() && n <= |job.symbols| && i < j < |NotReady(job.symbols, known, n)|
    ensures NotReady(job.symbols, known, n)[i] != NotReady(job.symbols, known, n)[j]
  {
    var all, before := NotReady(job.symbols, known, n), NotReady(job.symbols, known, n - 1);
    assert all == before || all == before + [job.symbols[n - 1]];
    hide NotReady;
    if j < |before| {
      PendingOnce(job, known, n - 1, i, j);
    } else {
      var k := PendingFrom(job.symbols, known, n - 1, i);
    }
  }

  lemma {:induction false} DistinctCount<T>(xs: seq<T>)
    requires forall i, j :: 0 <= i < j < |xs| ==> xs[i] != xs[j]
    ensures |set x | x in xs| == |xs|
  {
    if xs != [] {
      var init, last := xs[..|xs| - 1], xs[|xs| - 1];
      DistinctCount(init);
      assert last !in init;
      assert (set x | x in xs) == (set x | x in init) + {last};
    }
  }

  lemma DrainStarts<V>(job: Job<V>, store: Store<V>, w: Watch<V>, gathered: map<string, V>, disk: Disk<V>, values: map<string, V>)
    requires AllSound(job, store, w, disk, values) && Collected(gathered, store, disk, job, w.value)
    requires Split(gathered.Keys, w.pending, job.symbols, |job.symbols|)
    ensures Going(job, store, w, gathered, (set s | s in w.pending), disk, values)
  {
    hide AllSound, Collected;
  }

  lemma DrainEnds<V>(job: Job<V>, store: Store<V>, w: Watch<V>, results: map<string, V>, disk: Disk<V>, values: map<string, V>)
    requires Going(job, store, w, results, {}, disk, values)
    ensures forall s <- job.symbols :: s in results && results[s] == w.value(s)
    ensures forall s <- w.pending :: job.worker(s).Ok?
    ensures store.Some? ==> forall s <- job.symbols :: Checkpointed(store, disk, s) == Some(w.value(s))
  {
    hide AllSound, Checkpointed;
  }

  /** The first `n` symbols are divided between those with a result and those pending. */
  ghost predicate Split(done: set<string>, pending: seq<string>, symbols: seq<string>, n: nat)
    requires n <= |symbols|
  {
    && (forall k :: 0 <= k < n ==> (symbols[k] in done <==> symbols[k] !in pending))
    && (forall s <- done :: exists k :: 0 <= k < n && symbols[k] == s)
    && (forall s <- pending :: exists k :: 0 <= k < n && symbols[k] == s)
  }

  lemma GatherNothing<V>(job: Job<V>, store: Store<V>, disk: Disk<V>, value: string -> V, known: set<string>)
    ensures Collected(map[], store, disk, job, value)
    ensures OnlyAdded(store, disk, disk, job, value)
    ensures SameFrom(store, disk, disk, job.symbols, 0)
    ensures NotReady(job.symbols, known, 0) == []
    ensures Split({}, [], job.symbols, 0)
  {
  }

  lemma GatherNext<V>(job: Job<V>, store: Store<V>, start: Disk<V>, values: map<string, V>, i: nat,
                      done: set<string>, pending: seq<string>)
    requires job.Valid() && i < |job.symbols| && Split(done, pending, job.symbols, i)
    ensures var known, symbol := KnownAmong(store, start, values, job), job.symbols[i];
            var found := Known(store, start, values, job, symbol).Some?;
            && NotReady(job.symbols, known, i + 1) == NotReady(job.symbols, known, i) + (if found then [] else [symbol])
            && Split(if found then done + {symbol} else done, if found then pending else pending + [symbol], job.symbols, i + 1)
  {
    hide Known;
    var symbol := job.symbols[i];
    forall k | 0 <= k < i ensures job.symbols[k] != symbol {
    }
    assert symbol !in done && symbol !in pending;
  }

  /** The name of a symbol's checkpoint. */
  function BaselineFile(id: Identity, symbol: string): FileName {
    FileName(id.runId, Unit("baseline", map["symbol" := symbol, "variant" := "canonical-baseline"]))
  }

  /**
   A symbol is launched if and only if it has no cached result and no checkpoint that
   a resumed run may use: a payload under a manifest that names this very identity.
   */
  lemma LaunchedMeans<V>(store: Store<V>, disk: Disk<V>, values: map<string, V>, job: Job<V>, symbol: string)
    ensures symbol in NotReady(job.symbols, KnownAmong(store, disk, values, job), |job.symbols|)
       <==> symbol in job.symbols && job.key(symbol) !in values
            && !(store.Some? && store.value.resume
                 && BaselineFile(store.value.identity, symbol) in disk.payloads
                 && BaselineFile(store.value.identity, symbol) in disk.manifests
                 && disk.manifests[BaselineFile(store.value.identity, symbol)] == store.value.identity)
  {
    hide NotReady;
  }

  /** Every symbol is taken from a checkpoint, from the cache, or launched. */
  lemma {:induction false} EverySymbolOnce<V>(store: Store<V>, disk: Disk<V>, values: map<string, V>, job: Job<V>, n: nat)
    requires n <= |job.symbols|
    ensures ResumedAmong(store, disk, job, n) + HitsAmong(store, disk, values, job, n)
            + |NotReady(job.symbols, KnownAmong(store, disk, values, job), n)| == n
  {
    if n > 0 {
      EverySymbolOnce(store, disk, values, job, n - 1);
      hide Checkpointed;
      assert job.symbols[n - 1] in job.symbols;
    }
  }

  // ------------------------------------------------------------ stop and resume

  /**
   A first run may fail on any symbol and leaves the directory as `between`.  A second
   one, over that directory and without the cache of the first, returns what an
   uninterrupted run returns and launches exactly the symbols that have no checkpoint yet.
   */
  method InterruptedThenResumed<V>(directory: Directory<V>, identity: Identity, first: Job<V>, second: Job<V>,
                                   ghost value: string -> V)
      returns (r: Result<seq<(string, V)>>, launchedFirst: seq<string>, between: Disk<V>, launched: seq<string>)
    requires first.Valid() && first.Exact(value)
    requires second.symbols == first.symbols && second.key == first.key
    requires forall s <- first.symbols :: second.worker(s) == Ok(value(s))
    modifies directory
    ensures r == Ok(Sequential(first.symbols, value))
    ensures forall s <- first.symbols :: s in launched <==> Loaded(between, identity, UnitOf(s)).None?
    ensures forall s <- first.symbols :: Loaded(between, identity, UnitOf(s)) in {None, Some(value(s))}
    ensures forall s <- launched :: s in first.symbols && s in launchedFirst
    ensures (forall s <- launchedFirst :: first.worker(s).Ok?) ==> launched == []
  {
    hide StoreSound, OnlyAdded, NotReady, CacheSound, KnownAmong, Sequential;
    var store := new ResearchCheckpointStore(directory, identity, Restart);
    var runner := new UnifiedResearchOrchestrator<V>();
    NothingYet(Some(store), directory.Value(), first, value);
    var outcome;
    outcome, launchedFirst := runner.RunSymbolBaselines(first, Some(store), value);
    between := directory.Value();
    CheckpointsOf(store, between, first, value);
    var resumed := new ResearchCheckpointStore(directory, identity, Resume);
    var again := new UnifiedResearchOrchestrator<V>();
    SameIdentity(Some(store), Some(resumed), between, second, value);
    assert again.cache.values == map[];
    NothingYet(Some(resumed), Disk(map[], map[]), second, value);
    r, launched := again.RunSymbolBaselines(second, Some(resumed), value);
    OnlyUnfinished(Some(store), Some(resumed), between, first, second, launchedFirst, launched);
  }

  /** A restarted run launches every symbol; a resumed one launches none that is on disk. */
  lemma OnlyUnfinished<V>(store: Store<V>, resumed: Store<V>, disk: Disk<V>, first: Job<V>, second: Job<V>,
                          launchedFirst: seq<string>, launched: seq<string>)
    requires store.Some? && !store.value.resume && resumed.Some? && resumed.value.resume
    requires store.value.identity == resumed.value.identity && first.symbols == second.symbols
    requires exists d: Disk<V> :: launchedFirst == NotReady(first.symbols, KnownAmong(store, d, map[], first), |first.symbols|)
    requires launched == NotReady(second.symbols, KnownAmong(resumed, disk, map[], second), |second.symbols|)
    ensures forall s <- launched :: s in first.symbols && s in launchedFirst
    ensures forall s <- first.symbols :: s in launched <==> Loaded(disk, resumed.value.identity, UnitOf(s)).None?
    ensures (forall s <- first.symbols :: Checkpointed(store, disk, s).Some?) ==> launched == []
  {
    var d: Disk<V> :| launchedFirst == NotReady(first.symbols, KnownAmong(store, d, map[], first), |first.symbols|);
    assert KnownAmong(store, d, map[], first) == {};
    hide Checkpointed;
    forall s | s in second.symbols ensures s in launched <==> Checkpointed(resumed, disk, s).None? {
      assert s in KnownAmong(resumed, disk, map[], second) <==> Checkpointed(resumed, disk, s).Some?;
    }
    if launched != [] && forall s <- first.symbols :: Checkpointed(store, disk, s).Some? {
      var s := launched[0];
      assert s in launched;
      SameLoads(store, resumed, disk, s);
      assert false;
    }
  }

  lemma CheckpointsOf<V>(store: ResearchCheckpointStore<V>, disk: Disk<V>, job: Job<V>, value: string -> V)
    requires StoreSound(Some(store), disk, job.symbols, value)
    ensures forall s <- job.symbols :: Loaded(disk, store.identity, UnitOf(s)) in {None, Some(value(s))}
  {
    forall s | s in job.symbols ensures Loaded(disk, store.identity, UnitOf(s)) in {None, Some(value(s))} {
      assert Checkpointed(Some(store), disk, s).Some? ==> Checkpointed(Some(store), disk, s).value == value(s);
    }
  }

  lemma SameLoads<V>(a: Store<V>, b: Store<V>, disk: Disk<V>, symbol: string)
    requires a.Some? && b.Some? && a.value.identity == b.value.identity
    ensures Checkpointed(a, disk, symbol) == Checkpointed(b, disk, symbol)
  {
  }

  lemma NothingYet<V>(store: Store<V>, disk: Disk<V>, job: Job<V>, value: string -> V)
    ensures store.Some? && EmptyRun(disk, store.value.identity.runId) ==> StoreSound(store, disk, job.symbols, value)
    ensures CacheSound(map[], job, value)
  {
  }

  lemma SameIdentity<V>(a: Store<V>, b: Store<V>, disk: Disk<V>, job: Job<V>, value: string -> V)
    requires a.Some? && b.Some? && a.value.identity == b.value.identity && StoreSound(a, disk, job.symbols, value)
    ensures StoreSound(b, disk, job.symbols, value)
  {
  }

  /** Whatever stopped, and wherever, the disk it leaves is sound for the processes of a decisive run id. */
  lemma ReachableDiskIsSound<V>(compute: (Config, Unit) -> V, configs: iset<Config>, actions: seq<Action>,
                                c: Config, store: Store<V>, symbols: seq<string>)
    requires RunIdDecides(compute, configs) && Uses(actions, configs) && c in configs
    requires store.Some? && store.value.identity == c.identity
    ensures StoreSound(store, After(compute, actions).disk, symbols, s => compute(c, UnitOf(s)))
  {
    CrashSafety(compute, configs);
    assert LoadsAreExact(compute, After(compute, actions).disk, configs);
    hide Next;
  }
}
