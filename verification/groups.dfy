/**
 * The fetch → cache pipeline of weko_group_cache_db/groups.py: fetching an
 * institution's group ids from the mAP groups API, writing them to the
 * cache, the retry wrapper around both, and the two orchestrators that run
 * it for every institution of the manifest or for one of them.
 *
 * The settings are an explicit `Config`; the remote API, the clock and the
 * file system are inputs (`Env`, `existing`); the store is `Redis.Db`, or a
 * `Redis.Store` object in the methods.
 */
module Groups {
  import opened Wrappers
  import opened Exc
  import opened Redis
  import opened Http
  import Strings
  import Loader

  datatype Config = Config(
    cacheKeySuffix: string,
    cacheTtl: int,
    mapGroupsApiEndpoint: string,
    requestTimeout: int,
    requestInterval: int,
    requestRetries: nat)

  /** The settings' defaults; the API endpoint has none and must be given. */
  function DefaultConfig(endpoint: string): Config {
    Config("_gakunin_groups", 86400, endpoint, 20, 5, 3)
  }

  /** What a run depends on beyond the store: settings, the remote API and the current time (ISO 8601, seconds). */
  datatype Env = Env(cfg: Config, api: Api, now: string)

  type Institution = Loader.Institution

  // ---------------------------------------------------------------------------
  // fetch_map_groups
  // ---------------------------------------------------------------------------

  /** The group id of each entry that has an `id`: the text after its last `/`, in entry order. */
  function GroupIds(entries: seq<Entry>): (ids: seq<string>)
    ensures |ids| <= |entries|
    ensures forall i :: 0 <= i < |ids| ==> '/' !in ids[i]
  {
    if entries == [] then []
    else
      (if entries[0].id.Some? then [Strings.LastSegment(entries[0].id.value)] else [])
      + GroupIds(entries[1..])
  }

  /** Extraction works entry by entry: it distributes over concatenation. */
  lemma {:induction false} GroupIdsAppend(a: seq<Entry>, b: seq<Entry>)
    ensures GroupIds(a + b) == GroupIds(a) + GroupIds(b)
    decreases |a|
  {
    if a != [] {
      assert (a + b)[1..] == a[1..] + b;
      GroupIdsAppend(a[1..], b);
    } else {
      assert a + b == b;
    }
  }

  /** When every entry has an id, there is one group id per entry, position by position. */
  lemma {:induction false} GroupIdsAllIdentified(entries: seq<Entry>)
    requires forall i :: 0 <= i < |entries| ==> entries[i].id.Some?
    ensures |GroupIds(entries)| == |entries|
    ensures forall i :: 0 <= i < |entries| ==> GroupIds(entries)[i] == Strings.LastSegment(entries[i].id.value)
    decreases |entries|
  {
    if entries != [] {
      GroupIdsAllIdentified(entries[1..]);
    }
  }

  /** Entries without an id contribute nothing. */
  lemma {:induction false} GroupIdsAnonymous(entries: seq<Entry>)
    requires forall i :: 0 <= i < |entries| ==> entries[i].id.None?
    ensures GroupIds(entries) == []
    decreases |entries|
  {
    if entries != [] {
      GroupIdsAnonymous(entries[1..]);
    }
  }

  /** The request for an institution: its connector id resolved against the endpoint, its client files, the timeout. */
  function RequestFor(inst: Institution, cfg: Config): (req: Request)
    ensures req.cert == inst.clientCertPath && req.key == inst.clientKeyPath
    ensures req.timeout == Some(cfg.requestTimeout)
    ensures PlainSegment(inst.spConnectorId) ==> Strings.LastSegment(req.url) == inst.spConnectorId
  {
    UrlJoinLastSegment(cfg.mapGroupsApiEndpoint, inst.spConnectorId);
    Request(UrlJoin(cfg.mapGroupsApiEndpoint, inst.spConnectorId), inst.clientCertPath, inst.clientKeyPath, Some(cfg.requestTimeout))
  }

  /**
   * `fetch_map_groups` once the response is in: an error status raises
   * before the body is looked at, a body that is not JSON raises the
   * (retryable) decode error, JSON that is not an object has no `get`, and a
   * missing `entry` yields no groups.
   */
  function FetchMapGroups(resp: Response): (r: Result<seq<string>>)
    ensures resp.TransportFailure? || 400 <= resp.status < 600 ==> r.Err? && r.error.RequestException?
    ensures r.Ok? <==> resp.Http? && !(400 <= resp.status < 600) && resp.body.Object?
    ensures r.Ok? && resp.body.entry.None? ==> r.value == []
    ensures r.Ok? && resp.body.entry.Some? ==> r.value == GroupIds(resp.body.entry.value)
    ensures r.Err? ==> (Retryable(r.error) <==> !(resp.Http? && resp.body.NotObject? && !(400 <= resp.status < 600)))
  {
    match CheckedBody(resp)
    case Err(e) => Err(e)
    case Ok(body) =>
      match body
      case NotJson => Err(JsonDecodeFailure)
      case NotObject => Err(AttributeError("'list' object has no attribute 'get'"))
      case Object(entry) => Ok(if entry.Some? then GroupIds(entry.value) else [])
  }

  // ---------------------------------------------------------------------------
  // set_groups_to_redis
  // ---------------------------------------------------------------------------

  /** The cache key: the fqdn with `.` and `-` turned into `_`, then the suffix. */
  function CacheKey(fqdn: string, suffix: string): (key: string)
    ensures |key| == |fqdn| + |suffix| && key[|fqdn|..] == suffix
    ensures forall i :: 0 <= i < |fqdn| ==> key[i] == if fqdn[i] == '.' || fqdn[i] == '-' then '_' else fqdn[i]
  {
    Strings.Underscored(fqdn) + suffix
  }

  /** Two fqdns share a cache key exactly when they agree once `.` and `-` are read as `_`. */
  lemma CacheKeySameIff(a: string, b: string, suffix: string)
    ensures CacheKey(a, suffix) == CacheKey(b, suffix) <==> Strings.Underscored(a) == Strings.Underscored(b)
  {
    if CacheKey(a, suffix) == CacheKey(b, suffix) {
      assert |a| == |b|;
      assert CacheKey(a, suffix)[..|a|] == Strings.Underscored(a);
      assert CacheKey(b, suffix)[..|b|] == Strings.Underscored(b);
    }
  }

  /** The two fields one write sets. */
  function CacheRecord(ids: seq<string>, now: string): map<string, string> {
    map["updated_at" := now, "groups" := Strings.Join(ids, ",")]
  }

  /** The fields a key's hash holds now; none when the key is missing. */
  function FieldsAt(db: Db, key: string): map<string, string> {
    if key in db.data && db.data[key].Hash? then db.data[key].fields else map[]
  }

  /** The key holds a list, so a hash command on it fails. */
  predicate HoldsList(db: Db, key: string) {
    key in db.data && db.data[key].List?
  }

  /**
   * `set_groups_to_redis`: HSET of both fields, then PERSIST, then EXPIRE
   * with the cache TTL when that is not negative.  The first failing command
   * raises and the later ones are not issued.
   */
  function WriteGroups(db: Db, fqdn: string, ids: seq<string>, env: Env): Reply<()> {
    var key := CacheKey(fqdn, env.cfg.cacheKeySuffix);
    var h := db.Hset(key, CacheRecord(ids, env.now));
    if h.result.Err? then Reply(h.db, Err(h.result.error))
    else
      var p := h.db.Persist(key);
      if p.result.Err? then Reply(p.db, Err(p.result.error))
      else if env.cfg.cacheTtl >= 0 then
        var e := p.db.Expire(key, env.cfg.cacheTtl);
        Reply(e.db, if e.result.Err? then Err(e.result.error) else Ok(()))
      else Reply(p.db, Ok(()))
  }

  /** The write keeps the store's invariant: expiries only on existing keys, all positive. */
  lemma WriteGroupsKeepsValid(db: Db, fqdn: string, ids: seq<string>, env: Env)
    requires db.Valid()
    ensures WriteGroups(db, fqdn, ids, env).db.Valid()
  {
    var key := CacheKey(fqdn, env.cfg.cacheKeySuffix);
    var h := db.Hset(key, CacheRecord(ids, env.now));
    CommandsKeepValid(db, key, CacheRecord(ids, env.now), env.cfg.cacheTtl, "");
    var p := h.db.Persist(key);
    CommandsKeepValid(h.db, key, CacheRecord(ids, env.now), env.cfg.cacheTtl, "");
    CommandsKeepValid(p.db, key, CacheRecord(ids, env.now), env.cfg.cacheTtl, "");
  }

  /**
   * On a healthy connection the write succeeds: the record gains the two
   * fields (its other fields stay), nothing else in the store changes, a
   * positive TTL becomes the record's expiry, a negative one leaves it
   * without expiry, and a TTL of 0 deletes the record.
   */
  lemma WriteGroupsHealthy(db: Db, fqdn: string, ids: seq<string>, env: Env)
    requires db.Healthy(3)
    requires !HoldsList(db, CacheKey(fqdn, env.cfg.cacheKeySuffix))
    ensures var key := CacheKey(fqdn, env.cfg.cacheKeySuffix);
      var w := WriteGroups(db, fqdn, ids, env);
      && w.result.Ok?
      && (env.cfg.cacheTtl != 0 ==> w.db.data == db.data[key := Hash(FieldsAt(db, key) + CacheRecord(ids, env.now))])
      && (env.cfg.cacheTtl > 0 ==> w.db.ttl == db.ttl[key := env.cfg.cacheTtl])
      && (env.cfg.cacheTtl < 0 ==> w.db.ttl == db.ttl - {key})
      && (env.cfg.cacheTtl == 0 ==> w.db.data == db.data - {key} && w.db.ttl == db.ttl - {key})
  {
    var key := CacheKey(fqdn, env.cfg.cacheKeySuffix);
    var h := db.Hset(key, CacheRecord(ids, env.now));
    assert !db.NextFails();
    assert !h.db.NextFails() by {
      assert h.db.faults == if |db.faults| > 0 then db.faults[1..] else [];
    }
    var p := h.db.Persist(key);
    assert !p.db.NextFails() by {
      assert p.db.faults == if |h.db.faults| > 0 then h.db.faults[1..] else [];
    }
  }

  /**
   * What the cache then holds reads back as the ids that were written: the
   * `groups` field splits at commas into the ids, provided there is at least
   * one and none holds a comma.
   */
  lemma CachedGroupsReadBack(db: Db, fqdn: string, ids: seq<string>, env: Env)
    requires db.Healthy(3)
    requires !HoldsList(db, CacheKey(fqdn, env.cfg.cacheKeySuffix))
    requires env.cfg.cacheTtl != 0
    requires |ids| >= 1 && forall i :: 0 <= i < |ids| ==> ',' !in ids[i]
    ensures var key := CacheKey(fqdn, env.cfg.cacheKeySuffix);
      var w := WriteGroups(db, fqdn, ids, env);
      && key in w.db.data && w.db.data[key].Hash?
      && w.db.data[key].fields["updated_at"] == env.now
      && Strings.Split(w.db.data[key].fields["groups"], ',') == ids
  {
    WriteGroupsHealthy(db, fqdn, ids, env);
    Strings.SplitJoin(ids, ',');
  }

  /** The number of commands a successful write issues: HSET, PERSIST and, for a TTL of at least 0, EXPIRE. */
  function WriteCommands(cfg: Config): nat {
    if cfg.cacheTtl >= 0 then 3 else 2
  }

  /**
   * A write on a connection healthy for its commands issues exactly
   * `WriteCommands` of them, so one healthy for `n + 3` commands stays
   * healthy for `n` more.
   */
  lemma WriteGroupsKeepsHealth(db: Db, fqdn: string, ids: seq<string>, env: Env, n: nat)
    requires db.Healthy(n + 3)
    requires !HoldsList(db, CacheKey(fqdn, env.cfg.cacheKeySuffix))
    ensures var c := WriteCommands(env.cfg);
      WriteGroups(db, fqdn, ids, env).db.faults == if |db.faults| < c then [] else db.faults[c..]
    ensures WriteGroups(db, fqdn, ids, env).db.Healthy(n)
  {
    NextHealthy(db, n + 2);
    NextHealthy(db.Next(), n + 1);
    NextHealthy(db.Next().Next(), n);
    var key := CacheKey(fqdn, env.cfg.cacheKeySuffix);
    var h := db.Hset(key, CacheRecord(ids, env.now));
    assert h.db.faults == db.Next().faults;
    var p := h.db.Persist(key);
    assert p.db.faults == db.Next().Next().faults;
    assert db.Next().Next().faults == if |db.faults| < 2 then [] else db.faults[2..];
    if env.cfg.cacheTtl >= 0 {
      assert db.Next().Next().Next().faults == if |db.faults| < 3 then [] else db.faults[3..];
    }
  }

  /** The last write wins: writing twice leaves the store as the second write alone would. */
  lemma WriteGroupsTwice(db: Db, fqdn: string, first: seq<string>, second: seq<string>, env: Env, later: Env)
    requires db.Healthy(6)
    requires later.cfg == env.cfg
    requires !HoldsList(db, CacheKey(fqdn, env.cfg.cacheKeySuffix))
    ensures var w1 := WriteGroups(db, fqdn, first, env);
      var w2 := WriteGroups(w1.db, fqdn, second, later);
      var w := WriteGroups(db, fqdn, second, later);
      w2.result.Ok? && w2.db.data == w.db.data && w2.db.ttl == w.db.ttl
  {
    var key := CacheKey(fqdn, env.cfg.cacheKeySuffix);
    var w1 := WriteGroups(db, fqdn, first, env);
    WriteAgainReady(db, fqdn, first, env);
    WriteGroupsHealthy(w1.db, fqdn, second, later);
    TwiceTtl(db, fqdn, first, second, env, later);
    if env.cfg.cacheTtl != 0 {
      TwiceData(db, fqdn, first, second, env, later);
    } else {
      TwiceDeleted(db, fqdn, first, second, env, later);
    }
  }

  /** After a write on a connection healthy for six commands, a second write finds it healthy and no list in its way. */
  lemma WriteAgainReady(db: Db, fqdn: string, ids: seq<string>, env: Env)
    requires db.Healthy(6)
    requires !HoldsList(db, CacheKey(fqdn, env.cfg.cacheKeySuffix))
    ensures var w := WriteGroups(db, fqdn, ids, env);
      w.db.Healthy(3) && !HoldsList(w.db, CacheKey(fqdn, env.cfg.cacheKeySuffix))
  {
    WriteGroupsHealthy(db, fqdn, ids, env);
    WriteGroupsKeepsHealth(db, fqdn, ids, env, 3);
  }

  /** The expiry half of `WriteGroupsTwice`. */
  lemma TwiceTtl(db: Db, fqdn: string, first: seq<string>, second: seq<string>, env: Env, later: Env)
    requires db.Healthy(6)
    requires later.cfg == env.cfg
    requires !HoldsList(db, CacheKey(fqdn, env.cfg.cacheKeySuffix))
    ensures var w1 := WriteGroups(db, fqdn, first, env);
      WriteGroups(w1.db, fqdn, second, later).db.ttl == WriteGroups(db, fqdn, second, later).db.ttl
  {
    var key := CacheKey(fqdn, env.cfg.cacheKeySuffix);
    var w1 := WriteGroups(db, fqdn, first, env);
    WriteAgainReady(db, fqdn, first, env);
    WriteGroupsHealthy(db, fqdn, first, env);
    WriteGroupsHealthy(w1.db, fqdn, second, later);
    WriteGroupsHealthy(db, fqdn, second, later);
    var t := env.cfg.cacheTtl;
    if t > 0 {
      assert db.ttl[key := t][key := t] == db.ttl[key := t];
    } else {
      assert db.ttl - {key} - {key} == db.ttl - {key};
    }
  }

  /** The data half of `WriteGroupsTwice` when a TTL of 0 deletes the record. */
  lemma TwiceDeleted(db: Db, fqdn: string, first: seq<string>, second: seq<string>, env: Env, later: Env)
    requires db.Healthy(6)
    requires later.cfg == env.cfg && env.cfg.cacheTtl == 0
    requires !HoldsList(db, CacheKey(fqdn, env.cfg.cacheKeySuffix))
    ensures var w1 := WriteGroups(db, fqdn, first, env);
      WriteGroups(w1.db, fqdn, second, later).db.data == WriteGroups(db, fqdn, second, later).db.data
  {
    var key := CacheKey(fqdn, env.cfg.cacheKeySuffix);
    var w1 := WriteGroups(db, fqdn, first, env);
    WriteGroupsHealthy(db, fqdn, first, env);
    WriteAgainReady(db, fqdn, first, env);
    WriteGroupsHealthy(w1.db, fqdn, second, later);
    WriteGroupsHealthy(db, fqdn, second, later);
    assert db.data - {key} - {key} == db.data - {key};
  }

  /** The data half of `WriteGroupsTwice` when the record survives the write. */
  lemma TwiceData(db: Db, fqdn: string, first: seq<string>, second: seq<string>, env: Env, later: Env)
    requires db.Healthy(6)
    requires later.cfg == env.cfg && env.cfg.cacheTtl != 0
    requires !HoldsList(db, CacheKey(fqdn, env.cfg.cacheKeySuffix))
    ensures var w1 := WriteGroups(db, fqdn, first, env);
      WriteGroups(w1.db, fqdn, second, later).db.data == WriteGroups(db, fqdn, second, later).db.data
  {
    var key := CacheKey(fqdn, env.cfg.cacheKeySuffix);
    var w1 := WriteGroups(db, fqdn, first, env);
    var f0 := FieldsAt(db, key);
    var written := Hash(f0 + CacheRecord(first, env.now));
    var merged := Hash(f0 + CacheRecord(second, later.now));
    assert w1.db.data == db.data[key := written] by {
      HealthyData(db, fqdn, first, env);
    }
    assert WriteGroups(w1.db, fqdn, second, later).db.data == w1.db.data[key := merged] by {
      WriteAgainReady(db, fqdn, first, env);
      HealthyData(w1.db, fqdn, second, later);
      assert FieldsAt(w1.db, key) == f0 + CacheRecord(first, env.now);
      RecordOverrides(f0, first, second, env.now, later.now);
    }
    HealthyData(db, fqdn, second, later);
    OverwriteTwice(db.data, key, written, merged);
  }

  /** A second update of the same key hides the first. */
  lemma OverwriteTwice(m: map<string, Value>, k: string, a: Value, b: Value)
    ensures m[k := a][k := b] == m[k := b]
  {
  }

  /** The data part of `WriteGroupsHealthy`. */
  lemma HealthyData(db: Db, fqdn: string, ids: seq<string>, env: Env)
    requires db.Healthy(3) && env.cfg.cacheTtl != 0
    requires !HoldsList(db, CacheKey(fqdn, env.cfg.cacheKeySuffix))
    ensures var key := CacheKey(fqdn, env.cfg.cacheKeySuffix);
      WriteGroups(db, fqdn, ids, env).db.data == db.data[key := Hash(FieldsAt(db, key) + CacheRecord(ids, env.now))]
  {
    WriteGroupsHealthy(db, fqdn, ids, env);
  }

  /** A second record overrides every field of the first. */
  lemma RecordOverrides(f: map<string, string>, first: seq<string>, second: seq<string>, t1: string, t2: string)
    ensures f + CacheRecord(first, t1) + CacheRecord(second, t2) == f + CacheRecord(second, t2)
  {
    var a := f + CacheRecord(first, t1) + CacheRecord(second, t2);
    var b := f + CacheRecord(second, t2);
    assert a.Keys == b.Keys;
    forall k | k in a ensures a[k] == b[k] {
      if k == "updated_at" || k == "groups" {
      } else {
        assert a[k] == f[k];
      }
    }
  }

  /** A key holding a list refuses the HSET: the write raises WRONGTYPE and changes nothing. */
  lemma WriteGroupsOnList(db: Db, fqdn: string, ids: seq<string>, env: Env)
    requires !db.NextFails()
    requires HoldsList(db, CacheKey(fqdn, env.cfg.cacheKeySuffix))
    ensures var w := WriteGroups(db, fqdn, ids, env);
      w.result == Err(WrongType) && w.db.data == db.data && w.db.ttl == db.ttl
  {
  }

  /**
   * A connection lost after HSET and PERSIST but before EXPIRE leaves the new
   * record in place with no expiry at all, although the write raised.
   */
  lemma PartialWriteLosesExpiry(db: Db, fqdn: string, ids: seq<string>, env: Env)
    requires |db.faults| >= 3 && !db.faults[0] && !db.faults[1] && db.faults[2]
    requires env.cfg.cacheTtl > 0
    requires !HoldsList(db, CacheKey(fqdn, env.cfg.cacheKeySuffix))
    ensures var key := CacheKey(fqdn, env.cfg.cacheKeySuffix);
      var w := WriteGroups(db, fqdn, ids, env);
      && w.result == Err(ConnectionLost)
      && key in w.db.data && w.db.data[key] == Hash(FieldsAt(db, key) + CacheRecord(ids, env.now))
      && key !in w.db.ttl
  {
    var key := CacheKey(fqdn, env.cfg.cacheKeySuffix);
    var h := db.Hset(key, CacheRecord(ids, env.now));
    assert h.db.faults == db.faults[1..];
    var p := h.db.Persist(key);
    assert p.db.faults == db.faults[2..];
    assert p.db.NextFails();
  }

  /** The cache writer, issuing its commands on the shared connection. */
  method SetGroupsToRedis(store: Store, fqdn: string, ids: seq<string>, env: Env) returns (r: Result<()>)
    modifies store
    ensures WriteGroups(old(store.State()), fqdn, ids, env) == Reply(store.State(), r)
  {
    var key := CacheKey(fqdn, env.cfg.cacheKeySuffix);
    var h := store.Hset(key, CacheRecord(ids, env.now));
    if h.Err? {
      return Err(h.error);
    }
    var p := store.Persist(key);
    if p.Err? {
      return Err(p.error);
    }
    if env.cfg.cacheTtl >= 0 {
      var e := store.Expire(key, env.cfg.cacheTtl);
      if e.Err? {
        return Err(e.error);
      }
    }
    return Ok(());
  }

  // ---------------------------------------------------------------------------
  // fetch_and_cache: the retry wrapper
  // ---------------------------------------------------------------------------

  /** The ids fetched on the given attempt for an institution. */
  function FetchOn(inst: Institution, env: Env, attempt: nat): Result<seq<string>> {
    FetchMapGroups(env.api(RequestFor(inst, env.cfg), attempt))
  }

  /** One attempt: fetch, and only when that succeeded write; the value is the number of ids. */
  function Attempt(db: Db, inst: Institution, env: Env, attempt: nat): (a: Reply<nat>)
    ensures FetchOn(inst, env, attempt).Err? ==> a == Reply(db, Err(FetchOn(inst, env, attempt).error))
    ensures a.result.Ok? ==> FetchOn(inst, env, attempt).Ok? && a.result.value == |FetchOn(inst, env, attempt).value|
  {
    match FetchOn(inst, env, attempt)
    case Err(e) => Reply(db, Err(e))
    case Ok(ids) =>
      var w := WriteGroups(db, inst.fqdn, ids, env);
      Reply(w.db, if w.result.Err? then Err(w.result.error) else Ok(|ids|))
  }

  datatype RetryOutcome = RetryOutcome(db: Db, result: Result<nat>, attempts: nat)

  /** A function the decorator wraps: what attempt `n` does with the store it is handed. */
  type Run = (Db, nat) -> Reply<nat>

  /** The attempts `_retrieve_fetch_and_cache` makes for one institution. */
  function Attempts(inst: Institution, env: Env): Run {
    (db: Db, attempt: nat) => Attempt(db, inst, env, attempt)
  }

  /** An attempt that raised one of the two error classes the wrapper retries. */
  predicate FailedRetryably(a: Reply<nat>) {
    a.result.Err? && Retryable(a.result.error)
  }

  /**
   * `backoff.on_exception` with `max_tries = retries + 1` around any attempt
   * function, from attempt `attempt` on: a RequestException or a RedisError
   * is retried while attempts remain and is re-raised after the last one;
   * any other outcome ends the loop at once.
   */
  function RetryLoop(run: Run, retries: nat, db: Db, attempt: nat): (o: RetryOutcome)
    requires attempt <= retries
    ensures attempt < o.attempts <= retries + 1
    ensures FailedRetryably(Reply(o.db, o.result)) ==> o.attempts == retries + 1
    decreases retries - attempt
  {
    var a := run(db, attempt);
    if !FailedRetryably(a) || attempt == retries then RetryOutcome(a.db, a.result, attempt + 1)
    else RetryLoop(run, retries, a.db, attempt + 1)
  }

  /**
   * The store as the wrapper hands it to attempt `k`, when attempt `attempt`
   * began on `db` and every attempt in between was made.
   */
  function StoreBefore(run: Run, db: Db, attempt: nat, k: nat): Db
    requires attempt <= k
    decreases k - attempt
  {
    if k == attempt then db else StoreBefore(run, run(db, attempt).db, attempt + 1, k)
  }

  /** Unfolding the first attempt of `StoreBefore`. */
  lemma StoreBeforeStep(run: Run, db: Db, attempt: nat, k: nat)
    requires attempt < k
    ensures StoreBefore(run, db, attempt, k) == StoreBefore(run, run(db, attempt).db, attempt + 1, k)
  {
  }

  /** Every attempt from `attempt` up to, not including, `k` failed retryably. */
  predicate FailedUntil(run: Run, db: Db, attempt: nat, k: nat)
    requires attempt <= k
  {
    forall i :: attempt <= i < k ==> FailedRetryably(run(StoreBefore(run, db, attempt, i), i))
  }

  /** Failing retryably on `db` moves the failed prefix one attempt on. */
  lemma {:induction false} FailedUntilStep(run: Run, db: Db, attempt: nat, k: nat)
    requires attempt < k
    requires FailedRetryably(run(db, attempt))
    ensures FailedUntil(run, db, attempt, k) <==> FailedUntil(run, run(db, attempt).db, attempt + 1, k)
  {
    var next := run(db, attempt).db;
    var from := attempt + 1;
    forall i | from <= i < k
      ensures StoreBefore(run, db, attempt, i) == StoreBefore(run, next, from, i)
    {
      StoreBeforeStep(run, db, attempt, i);
    }
    assert StoreBefore(run, db, attempt, attempt) == db;
  }

  /**
   * `o` is what the wrapper returns when attempt `attempt` begins on `db`:
   * exactly its last attempt, made on the store the earlier attempts left
   * behind (that attempt's count, or its error re-raised), after earlier
   * attempts that each failed retryably; the last one either did not fail
   * retryably or was attempt `retries`.
   */
  predicate Traces(run: Run, retries: nat, db: Db, attempt: nat, o: RetryOutcome)
    requires attempt < o.attempts
  {
    var last := o.attempts - 1;
    && run(StoreBefore(run, db, attempt, last), last) == Reply(o.db, o.result)
    && FailedUntil(run, db, attempt, last)
    && (!FailedRetryably(Reply(o.db, o.result)) || last == retries)
  }

  /** A retryable failure before the last attempt hands its store on to the next attempt. */
  lemma LoopStep(run: Run, retries: nat, db: Db, attempt: nat)
    requires attempt < retries
    requires FailedRetryably(run(db, attempt))
    ensures RetryLoop(run, retries, db, attempt) == RetryLoop(run, retries, run(db, attempt).db, attempt + 1)
  {
  }

  /** An attempt that succeeds, fails otherwise, or is the last one ends the wrapper. */
  lemma LoopEnds(run: Run, retries: nat, db: Db, attempt: nat)
    requires attempt <= retries
    requires !FailedRetryably(run(db, attempt)) || attempt == retries
    ensures RetryLoop(run, retries, db, attempt) == RetryOutcome(run(db, attempt).db, run(db, attempt).result, attempt + 1)
  {
  }

  /** A retryable failure on `db` in front of a trace from the next attempt is a trace from this one. */
  lemma {:induction false} TracesStep(run: Run, retries: nat, db: Db, attempt: nat, o: RetryOutcome)
    requires attempt + 1 < o.attempts
    requires FailedRetryably(run(db, attempt))
    requires Traces(run, retries, run(db, attempt).db, attempt + 1, o)
    ensures Traces(run, retries, db, attempt, o)
  {
    StoreBeforeStep(run, db, attempt, o.attempts - 1);
    FailedUntilStep(run, db, attempt, o.attempts - 1);
  }

  /** The wrapper's outcome is the trace of its attempts. */
  lemma {:induction false} LoopTrace(run: Run, retries: nat, db: Db, attempt: nat)
    requires attempt <= retries
    ensures Traces(run, retries, db, attempt, RetryLoop(run, retries, db, attempt))
    decreases retries - attempt
  {
    var a := run(db, attempt);
    if !FailedRetryably(a) || attempt == retries {
      LoopEnds(run, retries, db, attempt);
      assert StoreBefore(run, db, attempt, attempt) == db;
    } else {
      LoopStep(run, retries, db, attempt);
      LoopTrace(run, retries, a.db, attempt + 1);
      TracesStep(run, retries, db, attempt, RetryLoop(run, retries, a.db, attempt + 1));
    }
  }

  /**
   * After attempts that each failed retryably, an attempt `k` that does not
   * fail retryably ends the wrapper with its own store and result, after
   * `k + 1` attempts.
   */
  lemma {:induction false} LoopRecovers(run: Run, retries: nat, db: Db, attempt: nat, k: nat)
    requires attempt <= k <= retries
    requires FailedUntil(run, db, attempt, k)
    requires !FailedRetryably(run(StoreBefore(run, db, attempt, k), k))
    ensures var a := run(StoreBefore(run, db, attempt, k), k);
      RetryLoop(run, retries, db, attempt) == RetryOutcome(a.db, a.result, k + 1)
    decreases k - attempt
  {
    if attempt < k {
      assert FailedRetryably(run(db, attempt)) by {
        assert StoreBefore(run, db, attempt, attempt) == db;
      }
      LoopStep(run, retries, db, attempt);
      StoreBeforeStep(run, db, attempt, k);
      FailedUntilStep(run, db, attempt, k);
      LoopRecovers(run, retries, run(db, attempt).db, attempt + 1, k);
    } else {
      LoopEnds(run, retries, db, attempt);
    }
  }

  /**
   * When every attempt fails retryably and leaves the store as it was, the
   * wrapper makes all `retries + 1` attempts and re-raises the last error.
   */
  lemma {:induction false} LoopExhausted(run: Run, retries: nat, db: Db, attempt: nat)
    requires attempt <= retries
    requires forall i :: attempt <= i <= retries ==> run(db, i).db == db && FailedRetryably(run(db, i))
    ensures RetryLoop(run, retries, db, attempt) == RetryOutcome(db, run(db, retries).result, retries + 1)
    decreases retries - attempt
  {
    if attempt < retries {
      LoopStep(run, retries, db, attempt);
      LoopExhausted(run, retries, db, attempt + 1);
    } else {
      LoopEnds(run, retries, db, attempt);
    }
  }

  /**
   * The retry decorator around one institution's attempts: at least one and
   * at most `requestRetries + 1` attempts, a retryable error only after the
   * last, and a count only from an attempt whose fetch succeeded, the
   * number of ids that attempt fetched.
   */
  function Retry(db: Db, inst: Institution, env: Env, attempt: nat): (o: RetryOutcome)
    requires attempt <= env.cfg.requestRetries
    ensures attempt < o.attempts <= env.cfg.requestRetries + 1
    ensures o.result.Err? && Retryable(o.result.error) ==> o.attempts == env.cfg.requestRetries + 1
    ensures o.result.Ok? ==>
      FetchOn(inst, env, o.attempts - 1).Ok? && o.result.value == |FetchOn(inst, env, o.attempts - 1).value|
  {
    LoopTrace(Attempts(inst, env), env.cfg.requestRetries, db, attempt);
    RetryLoop(Attempts(inst, env), env.cfg.requestRetries, db, attempt)
  }

  /** The fetch on this attempt fails with an error the wrapper retries. */
  predicate FetchFailsRetryably(inst: Institution, env: Env, attempt: nat) {
    FetchOn(inst, env, attempt).Err? && Retryable(FetchOn(inst, env, attempt).error)
  }

  /**
   * When every fetch fails, the wrapper makes all `requestRetries + 1`
   * attempts, never touches the store, and re-raises the last error.
   */
  lemma RetryExhausted(db: Db, inst: Institution, env: Env, attempt: nat)
    requires attempt <= env.cfg.requestRetries
    requires forall i :: attempt <= i <= env.cfg.requestRetries ==> FetchFailsRetryably(inst, env, i)
    ensures var last := FetchOn(inst, env, env.cfg.requestRetries);
      last.Err? && Retry(db, inst, env, attempt) == RetryOutcome(db, Err(last.error), env.cfg.requestRetries + 1)
  {
    var run := Attempts(inst, env);
    var retries := env.cfg.requestRetries;
    assert Retry(db, inst, env, attempt) == RetryOutcome(db, run(db, retries).result, retries + 1) by {
      forall i | attempt <= i <= retries
        ensures run(db, i).db == db && FailedRetryably(run(db, i))
      {
        assert FetchFailsRetryably(inst, env, i);
        assert run(db, i) == Reply(db, Err(FetchOn(inst, env, i).error));
      }
      LoopExhausted(run, retries, db, attempt);
    }
    assert run(db, retries).result == Err(FetchOn(inst, env, retries).error) by {
      assert FetchFailsRetryably(inst, env, retries);
    }
  }

  /**
   * After attempts that each failed retryably (the fetch, or the write to
   * the store), a fetch that succeeds on attempt `k` while the connection
   * is healthy is written once, and the wrapper returns that attempt's
   * number of ids after `k + 1` attempts.
   */
  lemma RetryRecovers(db: Db, inst: Institution, env: Env, attempt: nat, k: nat, ids: seq<string>)
    requires attempt <= k <= env.cfg.requestRetries
    requires FailedUntil(Attempts(inst, env), db, attempt, k)
    requires FetchOn(inst, env, k) == Ok(ids)
    requires StoreBefore(Attempts(inst, env), db, attempt, k).Healthy(3)
    requires !HoldsList(StoreBefore(Attempts(inst, env), db, attempt, k), CacheKey(inst.fqdn, env.cfg.cacheKeySuffix))
    ensures Retry(db, inst, env, attempt)
      == RetryOutcome(WriteGroups(StoreBefore(Attempts(inst, env), db, attempt, k), inst.fqdn, ids, env).db, Ok(|ids|), k + 1)
  {
    var run := Attempts(inst, env);
    var before := StoreBefore(run, db, attempt, k);
    assert run(before, k) == Reply(WriteGroups(before, inst.fqdn, ids, env).db, Ok(|ids|)) by {
      WriteGroupsHealthy(before, inst.fqdn, ids, env);
    }
    LoopRecovers(run, env.cfg.requestRetries, db, attempt, k);
  }

  /** An attempt whose fetch succeeds but whose first command fails spends that command and raises. */
  lemma AttemptLosesConnection(db: Db, inst: Institution, env: Env, attempt: nat)
    requires FetchOn(inst, env, attempt).Ok?
    requires db.NextFails()
    ensures Attempt(db, inst, env, attempt) == Reply(db.Next(), Err(ConnectionLost))
  {
  }

  /** Every attempt from `from` on loses the connection on a store whose next command fails. */
  ghost predicate LosesConnection(run: Run, from: nat, retries: nat) {
    forall d: Db, i: nat :: from <= i <= retries && d.NextFails() ==> run(d, i) == Reply(d.Next(), Err(ConnectionLost))
  }

  /**
   * Attempts that each lose the connection, on a store whose next commands
   * all fail: the loop makes every remaining attempt, each spending one
   * command, and re-raises the connection error.
   */
  lemma {:induction false} LoopDrains(run: Run, retries: nat, db: Db, attempt: nat)
    requires attempt <= retries
    requires LosesConnection(run, attempt, retries)
    requires db.Failing(retries - attempt + 1)
    ensures RetryLoop(run, retries, db, attempt)
      == RetryOutcome(db.(faults := db.faults[retries - attempt + 1..]), Err(ConnectionLost), retries + 1)
    decreases retries - attempt
  {
    var left := retries - attempt;
    NextFailing(db, left);
    assert run(db, attempt) == Reply(db.Next(), Err(ConnectionLost));
    if attempt < retries {
      LoopStep(run, retries, db, attempt);
      LoopDrains(run, retries, db.Next(), attempt + 1);
    } else {
      LoopEnds(run, retries, db, attempt);
    }
  }

  /**
   * When every fetch succeeds but every HSET fails on the connection, the
   * wrapper writes on all `requestRetries + 1` attempts, each spending one
   * command, and re-raises the connection error.
   */
  lemma RetryWriteAlwaysFails(db: Db, inst: Institution, env: Env, attempt: nat)
    requires attempt <= env.cfg.requestRetries
    requires forall i :: attempt <= i <= env.cfg.requestRetries ==> FetchOn(inst, env, i).Ok?
    requires db.Failing(env.cfg.requestRetries - attempt + 1)
    ensures var spent := env.cfg.requestRetries - attempt + 1;
      Retry(db, inst, env, attempt)
        == RetryOutcome(db.(faults := db.faults[spent..]), Err(ConnectionLost), env.cfg.requestRetries + 1)
  {
    var run := Attempts(inst, env);
    forall d: Db, i: nat | attempt <= i <= env.cfg.requestRetries && d.NextFails()
      ensures run(d, i) == Reply(d.Next(), Err(ConnectionLost))
    {
      AttemptLosesConnection(d, inst, env, i);
    }
    LoopDrains(run, env.cfg.requestRetries, db, attempt);
  }

  /**
   * Two retries: the first fetch fails, the second attempt's HSET fails on
   * the connection, and the third attempt writes and returns its count.
   */
  lemma RetryAfterMixedFailures(db: Db, inst: Institution, env: Env, ids: seq<string>)
    requires env.cfg.requestRetries == 2
    requires FetchFailsRetryably(inst, env, 0)
    requires FetchOn(inst, env, 1) == Ok(ids) && FetchOn(inst, env, 2) == Ok(ids)
    requires db.NextFails() && db.Next().Healthy(3)
    requires !HoldsList(db, CacheKey(inst.fqdn, env.cfg.cacheKeySuffix))
    ensures Retry(db, inst, env, 0) == RetryOutcome(WriteGroups(db.Next(), inst.fqdn, ids, env).db, Ok(|ids|), 3)
  {
    var run := Attempts(inst, env);
    assert run(db, 0) == Reply(db, Err(FetchOn(inst, env, 0).error));
    AttemptLosesConnection(db, inst, env, 1);
    assert run(db, 1) == Reply(db.Next(), Err(ConnectionLost));
    StoreBeforeStep(run, db, 0, 2);
    StoreBeforeStep(run, db, 1, 2);
    assert StoreBefore(run, db, 0, 2) == db.Next();
    assert StoreBefore(run, db, 0, 1) == db;
    assert FailedUntil(run, db, 0, 2);
    RetryRecovers(db, inst, env, 0, 2, ids);
  }

  /** An error outside the two retried classes (a JSON body that is not an object) ends the wrapper after one attempt. */
  lemma RetryStopsOnOtherErrors(db: Db, inst: Institution, env: Env, attempt: nat)
    requires attempt <= env.cfg.requestRetries
    requires FetchOn(inst, env, attempt).Err? && !Retryable(FetchOn(inst, env, attempt).error)
    ensures Retry(db, inst, env, attempt) == RetryOutcome(db, Err(FetchOn(inst, env, attempt).error), attempt + 1)
  {
    LoopEnds(Attempts(inst, env), env.cfg.requestRetries, db, attempt);
  }

  /** `_retrieve_fetch_and_cache`: one attempt on the shared connection. */
  method RetrieveFetchAndCache(store: Store, inst: Institution, env: Env, attempt: nat) returns (r: Result<nat>)
    modifies store
    ensures Attempt(old(store.State()), inst, env, attempt) == Reply(store.State(), r)
  {
    var fetched := FetchOn(inst, env, attempt);
    if fetched.Err? {
      return Err(fetched.error);
    }
    var groupIds := fetched.value;
    var written := SetGroupsToRedis(store, inst.fqdn, groupIds, env);
    if written.Err? {
      return Err(written.error);
    }
    return Ok(|groupIds|);
  }

  /** `fetch_and_cache()(institution, store)`: the bounded attempt loop. */
  method FetchAndCache(store: Store, inst: Institution, env: Env) returns (r: Result<nat>, attempts: nat)
    modifies store
    ensures Retry(old(store.State()), inst, env, 0) == RetryOutcome(store.State(), r, attempts)
  {
    var attempt := 0;
    while true
      invariant attempt <= env.cfg.requestRetries
      invariant Retry(old(store.State()), inst, env, 0) == RetryLoop(Attempts(inst, env), env.cfg.requestRetries, store.State(), attempt)
      decreases env.cfg.requestRetries - attempt
    {
      r := RetrieveFetchAndCache(store, inst, env, attempt);
      if r.Ok? || !Retryable(r.error) || attempt == env.cfg.requestRetries {
        return r, attempt + 1;
      }
      attempt := attempt + 1;
    }
  }

  // ---------------------------------------------------------------------------
  // fetch_all
  // ---------------------------------------------------------------------------

  /**
   * How a retry-exhausted failure is recorded.  `AsWritten` is the code's
   * `WekoGroupCacheDbError(fqdn, origin=ex)`, which raises TypeError;
   * `Intended` records `UpdateError(fqdn, ex)`.
   */
  datatype Wrapping = AsWritten | Intended

  function Wrap(fqdn: string, e: PyError, wrapping: Wrapping): (r: Result<PyError>)
    ensures wrapping == Intended ==> r == Ok(NewUpdateError(fqdn, Some(e)))
    ensures wrapping == AsWritten ==> r.Err? && r.error.TypeError?
  {
    match wrapping
    case AsWritten => NewCacheDbError(fqdn, Some(e))
    case Intended => Ok(NewUpdateError(fqdn, Some(e)))
  }

  /**
   * The state of the `fetch_all` loop: the store, each visited institution's
   * outcome, the recorded failures, the pauses made, and the error that
   * escaped the loop, if any.
   */
  datatype Progress = Progress(db: Db, outcomes: seq<Result<nat>>, failures: seq<PyError>, sleeps: nat, escaped: Option<PyError>)

  /** One iteration for the institution at `index` of `total`. */
  function Visit(p: Progress, inst: Institution, index: nat, total: nat, env: Env, wrapping: Wrapping): Progress {
    if p.escaped.Some? then p
    else Record(p, Retry(p.db, inst, env, 0), inst, index, total, wrapping)
  }

  /** The body of the `fetch_all` loop once the wrapper has returned `o` or raised from it. */
  function Record(p: Progress, o: RetryOutcome, inst: Institution, index: nat, total: nat, wrapping: Wrapping): Progress {
    var q := p.(db := o.db, outcomes := p.outcomes + [o.result]);
    var r :=
      if o.result.Ok? then q
      else if !Retryable(o.result.error) then q.(escaped := Some(o.result.error))
      else match Wrap(inst.fqdn, o.result.error, wrapping)
        case Ok(failure) => q.(failures := q.failures + [failure])
        case Err(e) => q.(escaped := Some(e));
    if r.escaped.None? && index != total - 1 then r.(sleeps := r.sleeps + 1) else r
  }

  /** The loop over `insts`, the first `|insts|` of `total` institutions. */
  function Batch(db: Db, insts: seq<Institution>, total: nat, env: Env, wrapping: Wrapping): Progress
    decreases |insts|
  {
    if insts == [] then Progress(db, [], [], 0, None)
    else Visit(Batch(db, insts[..|insts| - 1], total, env, wrapping), insts[|insts| - 1], |insts| - 1, total, env, wrapping)
  }

  /** The aggregate error's message. */
  function AggregateMessage(n: nat): string {
    "Failed to update information from " + Strings.NatToString(n) + " institution(s)."
  }

  /** The aggregate message names the number of failed institutions: it can be read back. */
  lemma AggregateMessageNamesCount(n: nat, m: nat)
    ensures AggregateMessage(n) == AggregateMessage(m) <==> n == m
  {
    var p := "Failed to update information from ";
    var t := " institution(s).";
    if AggregateMessage(n) == AggregateMessage(m) {
      var a := Strings.NatToString(n);
      var b := Strings.NatToString(m);
      assert AggregateMessage(n) == p + (a + t);
      assert AggregateMessage(m) == p + (b + t);
      assert a + t == AggregateMessage(n)[|p|..];
      assert b + t == AggregateMessage(m)[|p|..];
      Strings.NatToStringBeforeText(n, m, t, t);
    }
  }

  /** After the loop: the escaped error, else one aggregate of the failures if there are any. */
  function Conclude(p: Progress): Result<()> {
    if p.escaped.Some? then Err(p.escaped.value)
    else if |p.failures| > 0 then Err(ExceptionGroup(AggregateMessage(|p.failures|), p.failures))
    else Ok(())
  }

  datatype RunOutcome = RunOutcome(db: Db, result: Result<()>, sleeps: nat)

  /** `fetch_all`: load the manifest, then run every institution on one store. */
  function FetchAll(db: Db, read: Loader.ManifestRead, existing: set<string>, env: Env, wrapping: Wrapping): RunOutcome {
    match Loader.Load(read, existing)
    case Err(e) => RunOutcome(db, Err(e), 0)
    case Ok(sel) =>
      var p := Batch(db, sel.kept, |sel.kept|, env, wrapping);
      RunOutcome(p.db, Conclude(p), p.sleeps)
  }

  /** The number of failed outcomes. */
  function CountErr(outcomes: seq<Result<nat>>): (n: nat)
    ensures n <= |outcomes|
    ensures n == 0 <==> forall i :: 0 <= i < |outcomes| ==> outcomes[i].Ok?
  {
    if outcomes == [] then 0
    else CountErr(outcomes[..|outcomes| - 1]) + (if outcomes[|outcomes| - 1].Err? then 1 else 0)
  }

  /**
   * The failures `fetch_all` should report for these institutions and their
   * outcomes: one UpdateError per failed institution, in order, naming it
   * and carrying its error.
   */
  function Expected(insts: seq<Institution>, outcomes: seq<Result<nat>>): (fs: seq<PyError>)
    requires |insts| == |outcomes|
    ensures |fs| == CountErr(outcomes)
    ensures forall k :: 0 <= k < |fs| ==> fs[k].UpdateError? && fs[k].origin.Some?
    decreases |insts|
  {
    if insts == [] then []
    else
      var n := |insts| - 1;
      Expected(insts[..n], outcomes[..n])
      + (if outcomes[n].Err? then [UpdateError(insts[n].fqdn, Some(outcomes[n].error))] else [])
  }

  /** One iteration with failures recorded as UpdateError. */
  lemma VisitIntended(p: Progress, inst: Institution, index: nat, total: nat, env: Env)
    requires p.escaped.None?
    ensures var q := Visit(p, inst, index, total, env, Intended);
      var o := Retry(p.db, inst, env, 0);
      && q.db == o.db
      && q.outcomes == p.outcomes + [o.result]
      && (q.escaped.Some? <==> o.result.Err? && !Retryable(o.result.error))
      && (q.escaped.Some? ==> q.escaped.value == o.result.error)
      && (q.escaped.None? ==>
            && q.failures == p.failures + (if o.result.Err? then [UpdateError(inst.fqdn, Some(o.result.error))] else [])
            && q.sleeps == p.sleeps + (if index != total - 1 then 1 else 0))
  {
  }

  /**
   * With failures recorded as UpdateError, nothing escapes but an error the
   * wrapper does not retry; until then every institution is visited in
   * order, the recorded failures are exactly the expected UpdateErrors, and
   * there is one pause after each institution but the last of all.
   */
  lemma {:induction false} BatchIntended(db: Db, insts: seq<Institution>, total: nat, env: Env)
    requires |insts| <= total
    ensures var p := Batch(db, insts, total, env, Intended);
      && |p.outcomes| <= |insts|
      && (p.escaped.Some? ==> !Retryable(p.escaped.value))
      && (p.escaped.None? ==>
            && |p.outcomes| == |insts|
            && p.sleeps == (if |insts| == total && total > 0 then |insts| - 1 else |insts|)
            && p.failures == Expected(insts, p.outcomes)
            && (forall i :: 0 <= i < |insts| && p.outcomes[i].Err? ==> Retryable(p.outcomes[i].error)))
    decreases |insts|
  {
    if insts != [] {
      var n := |insts| - 1;
      var front := insts[..n];
      BatchIntended(db, front, total, env);
      var p0 := Batch(db, front, total, env, Intended);
      if p0.escaped.None? {
        VisitIntended(p0, insts[n], n, total, env);
        var p := Batch(db, insts, total, env, Intended);
        if p.escaped.None? {
          assert p.outcomes[..n] == p0.outcomes;
        }
      }
    }
  }

  /**
   * `fetch_all` with failures recorded as UpdateError, once the manifest has
   * loaded: it succeeds exactly when every institution's wrapper returns,
   * and otherwise, unless an error escaped, it raises one aggregate holding
   * one UpdateError per failed institution, in order.
   */
  lemma FetchAllIntended(db: Db, read: Loader.ManifestRead, existing: set<string>, env: Env)
    requires Loader.Load(read, existing).Ok?
    ensures var insts := Loader.Load(read, existing).value.kept;
      var p := Batch(db, insts, |insts|, env, Intended);
      var run := FetchAll(db, read, existing, env, Intended);
      && (run.result.Ok? <==> p.escaped.None? && forall i :: 0 <= i < |p.outcomes| ==> p.outcomes[i].Ok?)
      && (p.escaped.None? ==> |p.outcomes| == |insts| && run.sleeps == (if |insts| == 0 then 0 else |insts| - 1))
      && (p.escaped.None? && CountErr(p.outcomes) > 0 ==>
            run.result == Err(ExceptionGroup(AggregateMessage(CountErr(p.outcomes)), Expected(insts, p.outcomes))))
  {
    var insts := Loader.Load(read, existing).value.kept;
    var p := Batch(db, insts, |insts|, env, Intended);
    assert FetchAll(db, read, existing, env, Intended) == RunOutcome(p.db, Conclude(p), p.sleeps);
    BatchIntended(db, insts, |insts|, env);
  }

  /** The fetch for an institution fails outright, whatever the attempt. */
  ghost predicate AlwaysDown(env: Env) {
    forall req: Request, n: nat :: env.api(req, n).TransportFailure?
  }

  /** With the API down, the wrapper leaves the store alone and re-raises a retryable error. */
  lemma DownRetry(db: Db, inst: Institution, env: Env)
    requires AlwaysDown(env)
    ensures Retry(db, inst, env, 0).db == db
    ensures Retry(db, inst, env, 0).result.Err? && Retryable(Retry(db, inst, env, 0).result.error)
  {
    forall i | 0 <= i <= env.cfg.requestRetries ensures FetchFailsRetryably(inst, env, i) {
      assert env.api(RequestFor(inst, env.cfg), i).TransportFailure?;
    }
    RetryExhausted(db, inst, env, 0);
  }

  /**
   * As written, the first retry-exhausted institution stops `fetch_all`: with
   * two institutions and the API down, recording the first failure raises
   * TypeError, the second institution is never fetched and no pause is made;
   * recording UpdateError instead visits both, pauses once, and collects two
   * failures.
   */
  lemma BatchAsWrittenStopsEarly(db: Db, a: Institution, b: Institution, env: Env)
    requires AlwaysDown(env)
    ensures var asWritten := Batch(db, [a, b], 2, env, AsWritten);
      && asWritten.escaped.Some? && asWritten.escaped.value.TypeError?
      && |asWritten.outcomes| == 1 && asWritten.sleeps == 0 && asWritten.db == db
    ensures var intended := Batch(db, [a, b], 2, env, Intended);
      && intended.escaped.None? && |intended.outcomes| == 2 && intended.sleeps == 1
      && |intended.failures| == 2
      && intended.failures[0].UpdateError? && intended.failures[0].fqdn == a.fqdn
      && intended.failures[1].UpdateError? && intended.failures[1].fqdn == b.fqdn
  {
    assert [a, b][..1] == [a];
    assert [a][..0] == [];
    DownRetry(db, a, env);
    DownRetry(db, b, env);
    var start := Progress(db, [], [], 0, None);
    var w1 := Visit(start, a, 0, 2, env, AsWritten);
    assert Batch(db, [a], 2, env, AsWritten) == w1;
    assert w1.escaped.Some?;
    var i1 := Visit(start, a, 0, 2, env, Intended);
    VisitIntended(start, a, 0, 2, env);
    assert Batch(db, [a], 2, env, Intended) == i1;
    VisitIntended(i1, b, 1, 2, env);
  }

  /** The loop of `fetch_all`, on one shared connection, recording failures as UpdateError. */
  method RunFetchAll(store: Store, read: Loader.ManifestRead, existing: set<string>, env: Env) returns (r: Result<()>, sleeps: nat)
    modifies store
    ensures FetchAll(old(store.State()), read, existing, env, Intended) == RunOutcome(store.State(), r, sleeps)
  {
    ghost var db0 := store.State();
    var loaded := Loader.LoadInstitutions(read, existing);
    if loaded.Err? {
      return Err(loaded.error), 0;
    }
    var institutions := loaded.value.kept;
    var total := |institutions|;
    ghost var final := Batch(db0, institutions, total, env, Intended);
    assert FetchAll(db0, read, existing, env, Intended) == RunOutcome(final.db, Conclude(final), final.sleeps);
    var exceptions: seq<PyError> := [];
    ghost var outcomes: seq<Result<nat>> := [];
    sleeps := 0;
    var index := 0;
    while index < total
      invariant 0 <= index <= total
      invariant Batch(db0, institutions[..index], total, env, Intended)
        == Progress(store.State(), outcomes, exceptions, sleeps, None)
    {
      var institution := institutions[index];
      ghost var before := Progress(store.State(), outcomes, exceptions, sleeps, None);
      BatchSnoc(db0, institutions, index, total, env, Intended);
      var count, attempts := FetchAndCache(store, institution, env);
      ghost var o := RetryOutcome(store.State(), count, attempts);
      ghost var after := Record(before, o, institution, index, total, Intended);
      assert Batch(db0, institutions[..index + 1], total, env, Intended) == after;
      RecordIntended(before, o, institution, index, total);
      outcomes := outcomes + [count];
      if count.Err? {
        if !Retryable(count.error) {
          BatchEscapeSticky(db0, institutions, index + 1, total, env, Intended);
          return Err(count.error), sleeps;
        }
        exceptions := exceptions + [NewUpdateError(institution.fqdn, Some(count.error))];
      }
      if index != total - 1 {
        sleeps := sleeps + 1;
      }
      index := index + 1;
    }
    assert institutions[..index] == institutions;
    if |exceptions| > 0 {
      return Err(ExceptionGroup(AggregateMessage(|exceptions|), exceptions)), sleeps;
    }
    return Ok(()), sleeps;
  }

  /** The loop over one more institution is one more visit. */
  lemma BatchSnoc(db: Db, insts: seq<Institution>, i: nat, total: nat, env: Env, wrapping: Wrapping)
    requires i < |insts|
    ensures Batch(db, insts[..i + 1], total, env, wrapping)
      == Visit(Batch(db, insts[..i], total, env, wrapping), insts[i], i, total, env, wrapping)
  {
    assert insts[..i + 1][..i] == insts[..i];
  }

  /** The loop body recording failures as UpdateError, spelled out field by field. */
  lemma RecordIntended(p: Progress, o: RetryOutcome, inst: Institution, index: nat, total: nat)
    requires p.escaped.None?
    ensures var q := Record(p, o, inst, index, total, Intended);
      && q.db == o.db
      && q.outcomes == p.outcomes + [o.result]
      && (q.escaped.Some? <==> o.result.Err? && !Retryable(o.result.error))
      && (q.escaped.Some? ==> q.escaped.value == o.result.error)
      && (q.escaped.None? ==>
            && q.failures == p.failures + (if o.result.Err? then [UpdateError(inst.fqdn, Some(o.result.error))] else [])
            && q.sleeps == p.sleeps + (if index != total - 1 then 1 else 0))
  {
  }

  /** Once an error escapes, the later institutions change nothing. */
  lemma {:induction false} BatchEscapeSticky(db: Db, insts: seq<Institution>, i: nat, total: nat, env: Env, wrapping: Wrapping)
    requires i <= |insts|
    requires Batch(db, insts[..i], total, env, wrapping).escaped.Some?
    ensures Batch(db, insts, total, env, wrapping) == Batch(db, insts[..i], total, env, wrapping)
    decreases |insts| - i
  {
    if i < |insts| {
      assert insts[..i + 1][..i] == insts[..i];
      BatchEscapeSticky(db, insts, i + 1, total, env, wrapping);
    } else {
      assert insts[..i] == insts;
    }
  }

  // ---------------------------------------------------------------------------
  // fetch_one
  // ---------------------------------------------------------------------------

  /** `next(inst for inst in institutions if inst.fqdn == fqdn)`: the first match. */
  function FindFirst(insts: seq<Institution>, fqdn: string): (r: Option<nat>)
    ensures r.Some? ==> r.value < |insts| && insts[r.value].fqdn == fqdn
    ensures r.Some? ==> forall j :: 0 <= j < r.value ==> insts[j].fqdn != fqdn
    ensures r.None? <==> forall j :: 0 <= j < |insts| ==> insts[j].fqdn != fqdn
  {
    if insts == [] then None
    else if insts[0].fqdn == fqdn then Some(0)
    else match FindFirst(insts[1..], fqdn)
      case None => None
      case Some(i) => Some(i + 1)
  }

  function NotFoundMessage(fqdn: string): string {
    "Institution with FQDN " + fqdn + " not found."
  }

  /** `fetch_one(fqdn)`. */
  function FetchOne(db: Db, read: Loader.ManifestRead, existing: set<string>, fqdn: string, env: Env, wrapping: Wrapping): Reply<()> {
    match Loader.Load(read, existing)
    case Err(e) => Reply(db, Err(e))
    case Ok(sel) =>
      match FindFirst(sel.kept, fqdn)
      case None => Reply(db, Err(ValueError(NotFoundMessage(fqdn))))
      case Some(i) => Settle(fqdn, Retry(db, sel.kept[i], env, 0), wrapping)
  }

  /** The end of `fetch_one` once the wrapper has returned `o` or raised from it. */
  function Settle(fqdn: string, o: RetryOutcome, wrapping: Wrapping): Reply<()> {
    if o.result.Ok? then Reply(o.db, Ok(()))
    else if !Retryable(o.result.error) then Reply(o.db, Err(o.result.error))
    else match Wrap(fqdn, o.result.error, wrapping)
      case Ok(failure) => Reply(o.db, Err(failure))
      case Err(e) => Reply(o.db, Err(e))
  }

  /**
   * `fetch_one` acts on the first institution with the fqdn and only on it:
   * with no such institution it raises the not-found ValueError and leaves
   * the store alone; otherwise its store effect is that institution's
   * wrapper run, and a retry-exhausted error comes back as an UpdateError
   * naming the fqdn whose origin is that error.
   */
  lemma FetchOneIntended(db: Db, read: Loader.ManifestRead, existing: set<string>, fqdn: string, env: Env)
    requires Loader.Load(read, existing).Ok?
    ensures var insts := Loader.Load(read, existing).value.kept;
      var one := FetchOne(db, read, existing, fqdn, env, Intended);
      && ((forall j :: 0 <= j < |insts| ==> insts[j].fqdn != fqdn) ==>
            one == Reply(db, Err(ValueError(NotFoundMessage(fqdn)))))
      && (forall i :: 0 <= i < |insts| && insts[i].fqdn == fqdn && (forall j :: 0 <= j < i ==> insts[j].fqdn != fqdn) ==>
            var o := Retry(db, insts[i], env, 0);
            && one.db == o.db
            && (one.result.Ok? <==> o.result.Ok?)
            && (o.result.Err? && Retryable(o.result.error) ==>
                  one.result == Err(UpdateError(fqdn, Some(o.result.error)))))
  {
    var insts := Loader.Load(read, existing).value.kept;
    forall i | 0 <= i < |insts| && insts[i].fqdn == fqdn && (forall j :: 0 <= j < i ==> insts[j].fqdn != fqdn)
      ensures FindFirst(insts, fqdn) == Some(i)
    {
      var r := FindFirst(insts, fqdn);
      assert r.Some?;
      assert !(r.value < i) && !(i < r.value);
    }
  }

  /**
   * As written, a retry-exhausted failure in `fetch_one` surfaces as a
   * TypeError rather than as an error naming the institution.
   */
  lemma FetchOneAsWritten(db: Db, read: Loader.ManifestRead, existing: set<string>, fqdn: string, env: Env)
    requires Loader.Load(read, existing).Ok?
    requires FindFirst(Loader.Load(read, existing).value.kept, fqdn).Some?
    requires AlwaysDown(env)
    ensures FetchOne(db, read, existing, fqdn, env, AsWritten).result.Err?
    ensures FetchOne(db, read, existing, fqdn, env, AsWritten).result.error.TypeError?
    ensures FetchOne(db, read, existing, fqdn, env, Intended).result.Err?
    ensures FetchOne(db, read, existing, fqdn, env, Intended).result.error.UpdateError?
  {
    var insts := Loader.Load(read, existing).value.kept;
    var inst := insts[FindFirst(insts, fqdn).value];
    forall i | 0 <= i <= env.cfg.requestRetries ensures FetchFailsRetryably(inst, env, i) {
      assert env.api(RequestFor(inst, env.cfg), i).TransportFailure?;
    }
    RetryExhausted(db, inst, env, 0);
  }

  // ---------------------------------------------------------------------------
  // The wait settings the retry decorator reads
  // ---------------------------------------------------------------------------

  /**
   * The decorator builds its wait generator from REQUEST_RETRY_BASE,
   * REQUEST_RETRY_FACTOR and REQUEST_RETRY_MAX, which the settings do not
   * define; reading the first of them raises this error.
   */
  const MissingRetrySetting: PyError := AttributeError("'Settings' object has no attribute 'REQUEST_RETRY_BASE'")

  /**
   * The wrapper as shipped: the wait generator is built at the start of each
   * wrapped call, before the first attempt, so no attempt is made, the store
   * is left alone and the AttributeError is raised.
   */
  function ShippedRetry(db: Db): RetryOutcome {
    RetryOutcome(db, Err(MissingRetrySetting), 0)
  }

  /**
   * As shipped, the AttributeError is not one of the errors the orchestrators
   * catch: `fetch_all` stops at the first institution it visits, with no
   * failure recorded, no pause and the store unchanged, and `fetch_one`
   * raises it whatever the wrapping. With the wait settings defined, the
   * wrapper instead makes at least one attempt and never raises it unless an
   * attempt did.
   */
  lemma ShippedWrapperEscapes(p: Progress, db: Db, inst: Institution, index: nat, total: nat, fqdn: string, env: Env, wrapping: Wrapping)
    requires p.escaped.None?
    ensures !Retryable(MissingRetrySetting)
    ensures Record(p, ShippedRetry(p.db), inst, index, total, wrapping)
      == p.(outcomes := p.outcomes + [Err(MissingRetrySetting)], escaped := Some(MissingRetrySetting))
    ensures Settle(fqdn, ShippedRetry(db), wrapping) == Reply(db, Err(MissingRetrySetting))
    ensures var o := Retry(db, inst, env, 0);
      o.attempts >= 1 && (o.result == Err(MissingRetrySetting) ==> Attempt(StoreBefore(Attempts(inst, env), db, 0, o.attempts - 1), inst, env, o.attempts - 1).result == o.result)
  {
    LoopTrace(Attempts(inst, env), env.cfg.requestRetries, db, 0);
  }

  /** `fetch_one` on the shared connection, recording a retry-exhausted failure as UpdateError. */
  method RunFetchOne(store: Store, read: Loader.ManifestRead, existing: set<string>, fqdn: string, env: Env) returns (r: Result<()>)
    modifies store
    ensures FetchOne(old(store.State()), read, existing, fqdn, env, Intended) == Reply(store.State(), r)
  {
    var loaded := Loader.LoadInstitutions(read, existing);
    if loaded.Err? {
      return Err(loaded.error);
    }
    var target := FindFirst(loaded.value.kept, fqdn);
    if target.None? {
      return Err(ValueError(NotFoundMessage(fqdn)));
    }
    var count, attempts := FetchAndCache(store, loaded.value.kept[target.value], env);
    if count.Err? {
      if Retryable(count.error) {
        return Err(NewUpdateError(fqdn, Some(count.error)));
      }
      return Err(count.error);
    }
    return Ok(());
  }
}
