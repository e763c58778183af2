/**
 * The older orchestrators of weko_group_cache_db/utils.py.  They make one
 * attempt per institution, with no retry: `fetch_all` turns failures into
 * an exit code and `fetch_one` ignores an unknown fqdn.  Their
 * `fetch_map_groups` and `set_groups_to_redis` behave exactly as the newer
 * ones, so an attempt is `Groups.Attempt` on attempt number 0.
 */
module LegacyUtils {
  import opened Wrappers
  import opened Exc
  import opened Redis
  import Loader
  import Groups

  /** The state of the old `fetch_all` loop: the store, each outcome, the exit code, and an error that escaped. */
  datatype OldProgress = OldProgress(db: Db, outcomes: seq<Result<nat>>, code: nat, escaped: Option<PyError>)

  /** One iteration: a RequestException or RedisError sets the code to 1; any other error escapes. */
  function OldVisit(p: OldProgress, inst: Groups.Institution, env: Groups.Env): OldProgress {
    if p.escaped.Some? then p
    else
      var a := Groups.Attempt(p.db, inst, env, 0);
      var q := p.(db := a.db, outcomes := p.outcomes + [a.result]);
      if a.result.Ok? then q
      else if Retryable(a.result.error) then q.(code := 1)
      else q.(escaped := Some(a.result.error))
  }

  function OldBatch(db: Db, insts: seq<Groups.Institution>, env: Groups.Env): OldProgress
    decreases |insts|
  {
    if insts == [] then OldProgress(db, [], 0, None)
    else OldVisit(OldBatch(db, insts[..|insts| - 1], env), insts[|insts| - 1], env)
  }

  /** The old `fetch_all(file_path)`: the exit code, or the error that escaped. */
  function OldFetchAll(db: Db, read: Loader.ManifestRead, existing: set<string>, env: Groups.Env): Reply<nat> {
    match Loader.Load(read, existing)
    case Err(e) => Reply(db, Err(e))
    case Ok(sel) =>
      var p := OldBatch(db, sel.kept, env);
      Reply(p.db, if p.escaped.Some? then Err(p.escaped.value) else Ok(p.code))
  }

  /**
   * What the old loop keeps: unless an error outside the two caught classes
   * escaped, the `n` institutions seen were each attempted once, and the code
   * is 0 exactly when every attempt succeeded, 1 otherwise.
   */
  ghost predicate CodeAccounts(p: OldProgress, n: nat) {
    && |p.outcomes| <= n
    && (p.escaped.Some? ==> !Retryable(p.escaped.value))
    && (p.escaped.None? ==>
          && |p.outcomes| == n
          && (p.code == 0 || p.code == 1)
          && (p.code == 0 <==> forall i :: 0 <= i < |p.outcomes| ==> p.outcomes[i].Ok?)
          && (forall i :: 0 <= i < |p.outcomes| && p.outcomes[i].Err? ==> Retryable(p.outcomes[i].error)))
  }

  lemma OldVisitAccounts(p: OldProgress, n: nat, inst: Groups.Institution, env: Groups.Env)
    requires CodeAccounts(p, n)
    ensures CodeAccounts(OldVisit(p, inst, env), n + 1)
  {
    var q := OldVisit(p, inst, env);
    if p.escaped.None? && q.escaped.None? {
      var a := Groups.Attempt(p.db, inst, env, 0);
      assert q.outcomes == p.outcomes + [a.result];
      assert forall i :: 0 <= i < n ==> q.outcomes[i] == p.outcomes[i];
      assert q.outcomes[n] == a.result;
      if a.result.Ok? {
        assert q.code == p.code;
      } else {
        assert q.code == 1 && !q.outcomes[n].Ok?;
      }
    }
  }

  /** A failure does not stop the old loop: the code accounts for every institution. */
  lemma {:induction false} OldBatchCode(db: Db, insts: seq<Groups.Institution>, env: Groups.Env)
    ensures CodeAccounts(OldBatch(db, insts, env), |insts|)
    decreases |insts|
  {
    if insts != [] {
      var n := |insts| - 1;
      OldBatchCode(db, insts[..n], env);
      OldVisitAccounts(OldBatch(db, insts[..n], env), n, insts[n], env);
    }
  }

  /** Once an error escapes, the later institutions change nothing. */
  lemma {:induction false} OldBatchEscapeSticky(db: Db, insts: seq<Groups.Institution>, i: nat, env: Groups.Env)
    requires i <= |insts|
    requires OldBatch(db, insts[..i], env).escaped.Some?
    ensures OldBatch(db, insts, env) == OldBatch(db, insts[..i], env)
    decreases |insts| - i
  {
    if i < |insts| {
      assert insts[..i + 1][..i] == insts[..i];
      OldBatchEscapeSticky(db, insts, i + 1, env);
    } else {
      assert insts[..i] == insts;
    }
  }

  /** The old `fetch_all` loop with its `code` variable. */
  method RunOldFetchAll(store: Store, read: Loader.ManifestRead, existing: set<string>, env: Groups.Env) returns (r: Result<nat>)
    modifies store
    ensures OldFetchAll(old(store.State()), read, existing, env) == Reply(store.State(), r)
  {
    ghost var db0 := store.State();
    var loaded := Loader.LoadInstitutions(read, existing);
    if loaded.Err? {
      return Err(loaded.error);
    }
    var institutions := loaded.value.kept;
    var code := 0;
    ghost var outcomes: seq<Result<nat>> := [];
    var index := 0;
    while index < |institutions|
      invariant 0 <= index <= |institutions|
      invariant OldBatch(db0, institutions[..index], env) == OldProgress(store.State(), outcomes, code, None)
    {
      var institution := institutions[index];
      ghost var before := OldProgress(store.State(), outcomes, code, None);
      assert institutions[..index + 1][..index] == institutions[..index];
      assert OldBatch(db0, institutions[..index + 1], env) == OldVisit(before, institution, env);
      var result := Groups.RetrieveFetchAndCache(store, institution, env, 0);
      outcomes := outcomes + [result];
      if result.Err? {
        if !Retryable(result.error) {
          OldBatchEscapeSticky(db0, institutions, index + 1, env);
          return Err(result.error);
        }
        code := 1;
      }
      index := index + 1;
    }
    assert institutions[..index] == institutions;
    return Ok(code);
  }

  /**
   * The old `fetch_one(file_path, fqdn)`: an unknown fqdn is only logged, and
   * the fetch and store errors of the one attempt propagate unchanged.
   */
  function OldFetchOne(db: Db, read: Loader.ManifestRead, existing: set<string>, fqdn: string, env: Groups.Env): Reply<()> {
    match Loader.Load(read, existing)
    case Err(e) => Reply(db, Err(e))
    case Ok(sel) =>
      match Groups.FindFirst(sel.kept, fqdn)
      case None => Reply(db, Ok(()))
      case Some(i) =>
        var a := Groups.Attempt(db, sel.kept[i], env, 0);
        Reply(a.db, if a.result.Err? then Err(a.result.error) else Ok(()))
  }

  /**
   * With no institution of that fqdn, the old `fetch_one` returns normally
   * and issues no store command; otherwise it makes exactly one attempt for
   * the first match, and succeeds only when both the fetch and the write
   * did, raising their error as it is.
   */
  lemma OldFetchOneFacts(db: Db, read: Loader.ManifestRead, existing: set<string>, fqdn: string, env: Groups.Env)
    requires Loader.Load(read, existing).Ok?
    ensures var insts := Loader.Load(read, existing).value.kept;
      var one := OldFetchOne(db, read, existing, fqdn, env);
      && ((forall j :: 0 <= j < |insts| ==> insts[j].fqdn != fqdn) ==> one == Reply(db, Ok(())))
      && (forall i :: 0 <= i < |insts| && insts[i].fqdn == fqdn && (forall j :: 0 <= j < i ==> insts[j].fqdn != fqdn) ==>
            var a := Groups.Attempt(db, insts[i], env, 0);
            && one.db == a.db
            && (one.result.Ok? <==> Groups.FetchOn(insts[i], env, 0).Ok? && a.result.Ok?)
            && (a.result.Err? ==> one.result == Err(a.result.error)))
  {
    var insts := Loader.Load(read, existing).value.kept;
    forall i | 0 <= i < |insts| && insts[i].fqdn == fqdn && (forall j :: 0 <= j < i ==> insts[j].fqdn != fqdn)
      ensures Groups.FindFirst(insts, fqdn) == Some(i)
    {
      var r := Groups.FindFirst(insts, fqdn);
      assert !(r.value < i) && !(i < r.value);
    }
  }

  method RunOldFetchOne(store: Store, read: Loader.ManifestRead, existing: set<string>, fqdn: string, env: Groups.Env) returns (r: Result<()>)
    modifies store
    ensures OldFetchOne(old(store.State()), read, existing, fqdn, env) == Reply(store.State(), r)
  {
    var loaded := Loader.LoadInstitutions(read, existing);
    if loaded.Err? {
      return Err(loaded.error);
    }
    var target := Groups.FindFirst(loaded.value.kept, fqdn);
    if target.None? {
      return Ok(());
    }
    var count := Groups.RetrieveFetchAndCache(store, loaded.value.kept[target.value], env, 0);
    if count.Err? {
      return Err(count.error);
    }
    return Ok(());
  }
}
