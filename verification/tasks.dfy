/**
 * The task loop of weko_group_cache_db/tasks.py: `set_groups` for every
 * configured service provider, in key order, skipping those without an
 * fqdn and stopping at the first failure.  The `set_groups` it calls, with
 * the settings and message templates it reads, is the get-groups
 * service's.  Log lines are returned as a sequence instead of written.
 */
module Tasks {
  import opened Wrappers
  import opened Exc
  import opened Redis
  import opened Http
  import opened AppConfig
  import GetGroups

  /** Everything one run reads besides the store: settings, existing files, the API, the clock, the message table. */
  datatype TaskEnv = TaskEnv(settings: Settings, existing: set<string>, api: Api, now: string, messages: MessageTable)

  /** The store afterwards, what the call returned or raised, and the line it logged. */
  datatype TaskOutcome = TaskOutcome(db: Db, result: Result<()>, log: string)

  /** `set_groups_task(fqdn)`: `set_groups`, then a success line, or a failure line and the error raised again. */
  function GroupsTask(db: Db, env: TaskEnv, fqdn: string): TaskOutcome {
    var s := GetGroups.SetGroupsSpec(db, env.settings, fqdn, env.existing, env.api, env.now, env.messages);
    TaskOutcome(s.db, s.result, if s.result.Ok? then TaskSuccess(fqdn) else TaskFailed(fqdn))
  }

  /**
   * The task changes neither the outcome nor the effect of `set_groups`: it
   * returns what `set_groups` returned, re-raises what it raised, and logs
   * success exactly when `set_groups` returned.
   */
  lemma GroupsTaskReraises(db: Db, env: TaskEnv, fqdn: string)
    ensures var t := GroupsTask(db, env, fqdn);
      var s := GetGroups.SetGroupsSpec(db, env.settings, fqdn, env.existing, env.api, env.now, env.messages);
      && t.db == s.db && t.result == s.result
      && (t.log == TaskSuccess(fqdn) <==> s.result.Ok?)
      && (t.log == TaskFailed(fqdn) <==> s.result.Err?)
  {
    assert |TaskSuccess(fqdn)| != |TaskFailed(fqdn)|;
  }

  method SetGroupsTask(store: Store, env: TaskEnv, fqdn: string) returns (r: Result<()>, log: string)
    modifies store
    ensures GroupsTask(old(store.State()), env, fqdn) == TaskOutcome(store.State(), r, log)
  {
    r := GetGroups.SetGroups(store, env.settings, fqdn, env.existing, env.api, env.now, env.messages);
    if r.Err? {
      log := TaskFailed(fqdn);
      return;
    }
    log := TaskSuccess(fqdn);
  }

  /** The loop so far: the store, the lines logged, the fqdns handed to the task, and the error that stopped it. */
  datatype TaskRun = TaskRun(db: Db, logs: seq<string>, processed: seq<string>, failed: Option<PyError>)

  /** One iteration over an `(org, settings)` pair. */
  function TaskStep(run: TaskRun, org: (string, SpEntry), env: TaskEnv): TaskRun {
    if run.failed.Some? then run
    else if !Truthy(org.1.orgSpFqdn) then run.(logs := run.logs + [FqdnNotDefined(org.0)])
    else
      var fqdn := org.1.orgSpFqdn.value;
      var t := GroupsTask(run.db, env, fqdn);
      TaskRun(t.db, run.logs + [t.log], run.processed + [fqdn], if t.result.Err? then Some(t.result.error) else None)
  }

  function TaskLoop(db: Db, orgs: seq<(string, SpEntry)>, env: TaskEnv): TaskRun
    decreases |orgs|
  {
    if orgs == [] then TaskRun(db, [], [], None)
    else TaskStep(TaskLoop(db, orgs[..|orgs| - 1], env), orgs[|orgs| - 1], env)
  }

  /** The fqdns of the providers that have one, in key order. */
  function DefinedFqdns(orgs: seq<(string, SpEntry)>): (fs: seq<string>)
    ensures |fs| <= |orgs|
    ensures forall i :: 0 <= i < |fs| ==> fs[i] != ""
    decreases |orgs|
  {
    if orgs == [] then []
    else
      var n := |orgs| - 1;
      DefinedFqdns(orgs[..n]) + (if Truthy(orgs[n].1.orgSpFqdn) then [orgs[n].1.orgSpFqdn.value] else [])
  }

  /**
   * The loop stopped at provider `n`: it has an fqdn, the fqdns processed
   * are the defined ones up to and including it, and its task failed.
   */
  ghost predicate StoppedAt(db: Db, orgs: seq<(string, SpEntry)>, env: TaskEnv, processed: seq<string>, n: nat)
    requires n < |orgs|
  {
    && Truthy(orgs[n].1.orgSpFqdn)
    && processed == DefinedFqdns(orgs[..n + 1])
    && GroupsTask(TaskLoop(db, orgs[..n], env).db, env, orgs[n].1.orgSpFqdn.value).result.Err?
  }

  /** Stopping inside a prefix is stopping in the whole sequence. */
  lemma StoppedAtExtends(db: Db, orgs: seq<(string, SpEntry)>, k: nat, env: TaskEnv, processed: seq<string>, n: nat)
    requires n < k <= |orgs|
    requires StoppedAt(db, orgs[..k], env, processed, n)
    ensures StoppedAt(db, orgs, env, processed, n)
  {
    assert orgs[..k][..n + 1] == orgs[..n + 1];
    assert orgs[..k][..n] == orgs[..n];
  }

  /**
   * The loop hands the task exactly the defined fqdns, in key order, when
   * nothing failed; when a task failed, the loop stopped right after the
   * first failing provider, so later providers were not processed.
   */
  lemma {:induction false} TaskLoopProcesses(db: Db, orgs: seq<(string, SpEntry)>, env: TaskEnv)
    ensures var run := TaskLoop(db, orgs, env);
      && (run.failed.None? ==> run.processed == DefinedFqdns(orgs))
      && (run.failed.Some? ==> exists n :: 0 <= n < |orgs| && StoppedAt(db, orgs, env, run.processed, n))
    decreases |orgs|
  {
    if orgs != [] {
      var k := |orgs| - 1;
      var prev := TaskLoop(db, orgs[..k], env);
      TaskLoopProcesses(db, orgs[..k], env);
      var run := TaskLoop(db, orgs, env);
      if prev.failed.Some? {
        var n :| 0 <= n < k && StoppedAt(db, orgs[..k], env, prev.processed, n);
        StoppedAtExtends(db, orgs, k, env, prev.processed, n);
        assert run == prev;
      } else if run.failed.Some? {
        assert orgs[..k + 1] == orgs;
        assert StoppedAt(db, orgs, env, run.processed, k);
      }
    }
  }

  /** Once a task failed, the remaining providers change nothing. */
  lemma {:induction false} TaskLoopFailureSticky(db: Db, orgs: seq<(string, SpEntry)>, i: nat, env: TaskEnv)
    requires i <= |orgs|
    requires TaskLoop(db, orgs[..i], env).failed.Some?
    ensures TaskLoop(db, orgs, env) == TaskLoop(db, orgs[..i], env)
    decreases |orgs| - i
  {
    if i < |orgs| {
      assert orgs[..i + 1][..i] == orgs[..i];
      TaskLoopFailureSticky(db, orgs, i + 1, env);
    } else {
      assert orgs[..i] == orgs;
    }
  }

  /** The store afterwards, what the run returned or raised, and every line it logged. */
  datatype CreateOutcome = CreateOutcome(db: Db, result: Result<()>, logs: seq<string>)

  /** `create_set_groups_task()` */
  function CreateTasks(db: Db, env: TaskEnv): CreateOutcome {
    var run := TaskLoop(db, env.settings.spAuthorization, env);
    if run.failed.Some? then CreateOutcome(run.db, Err(run.failed.value), run.logs + [CreateTaskFailed])
    else CreateOutcome(run.db, Ok(()), run.logs + [CreateTaskSuccess])
  }

  /**
   * The run ends with the success line exactly when every task succeeded,
   * having processed every defined fqdn; otherwise it ends with the failure
   * line and raises the first task's error.
   */
  lemma CreateTasksConcludes(db: Db, env: TaskEnv)
    ensures var c := CreateTasks(db, env);
      var run := TaskLoop(db, env.settings.spAuthorization, env);
      && |c.logs| > 0
      && (c.logs[|c.logs| - 1] == CreateTaskSuccess <==> c.result.Ok?)
      && (c.logs[|c.logs| - 1] == CreateTaskFailed <==> c.result.Err?)
      && (c.result.Ok? ==> run.processed == DefinedFqdns(env.settings.spAuthorization))
      && (c.result.Err? ==> c.result == Err(run.failed.value))
  {
    TaskLoopProcesses(db, env.settings.spAuthorization, env);
    assert |CreateTaskSuccess| != |CreateTaskFailed|;
  }

  /** `create_set_groups_task`: a for loop over the providers inside one try block. */
  method CreateSetGroupsTask(store: Store, env: TaskEnv) returns (r: Result<()>, logs: seq<string>)
    modifies store
    ensures CreateTasks(old(store.State()), env) == CreateOutcome(store.State(), r, logs)
  {
    ghost var db0 := store.State();
    var orgList := env.settings.spAuthorization;
    logs := [];
    ghost var processed: seq<string> := [];
    var i := 0;
    while i < |orgList|
      invariant 0 <= i <= |orgList|
      invariant TaskLoop(db0, orgList[..i], env) == TaskRun(store.State(), logs, processed, None)
    {
      var org := orgList[i];
      ghost var before := TaskRun(store.State(), logs, processed, None);
      assert orgList[..i + 1][..i] == orgList[..i];
      assert TaskLoop(db0, orgList[..i + 1], env) == TaskStep(before, org, env);
      if !Truthy(org.1.orgSpFqdn) {
        logs := logs + [FqdnNotDefined(org.0)];
      } else {
        var fqdn := org.1.orgSpFqdn.value;
        var result, line := SetGroupsTask(store, env, fqdn);
        logs := logs + [line];
        processed := processed + [fqdn];
        if result.Err? {
          TaskLoopFailureSticky(db0, orgList, i + 1, env);
          logs := logs + [CreateTaskFailed];
          return Err(result.error), logs;
        }
      }
      i := i + 1;
    }
    assert orgList[..i] == orgList;
    logs := logs + [CreateTaskSuccess];
    return Ok(()), logs;
  }
}
