/**
 * The new-group service (app/new-group/new_group/utils.py): a group id of
 * the form `jc_<fqdn>_groups_...` or `jc_<fqdn>_roles_...` is appended to
 * the list kept under `<fqdn> + GAKUNIN_GROUP_SUFFIX`, when it is not there
 * yet, or, for an empty list, when `<fqdn>` is a configured service
 * provider.
 */
module NewGroup {
  import opened Wrappers
  import opened Exc
  import opened Redis
  import opened AppConfig
  import Strings
  import GetGroups
  import Groups

  /** The fqdn part of a group id that follows the format; `_roles_` counts only when `_groups_` is absent. */
  function ParseGroupId(id: string, settings: Settings): Option<string> {
    if !(Strings.StartsWith(id, settings.prefix)
         && (Strings.Contains(id, settings.groupSuffix) || Strings.Contains(id, settings.roleSuffix)))
    then None
    else
      var idx := if Strings.Contains(id, settings.groupSuffix) then Strings.Find(id, settings.groupSuffix).value
        else Strings.Find(id, settings.roleSuffix).value;
      Some(Strings.Slice(id, |settings.prefix|, idx))
  }

  /** The first occurrence is where a match sits with none before it. */
  lemma FindAt(s: string, p: string, k: nat)
    requires Strings.MatchesAt(s, p, k)
    requires forall j :: 0 <= j < k ==> !Strings.MatchesAt(s, p, j)
    ensures Strings.Find(s, p) == Some(k)
  {
    var r := Strings.Find(s, p);
    assert r.Some?;
    assert !(r.value < k);
    assert !(k < r.value);
  }

  /**
   * A group id built as prefix, fqdn, `_groups_`, anything, gives the fqdn
   * back, provided `_groups_` does not already occur before the fqdn ends.
   */
  lemma ParseRecoversFqdn(settings: Settings, fqdn: string, rest: string)
    requires forall j :: 0 <= j < |settings.prefix| + |fqdn| ==>
      !Strings.MatchesAt(settings.prefix + fqdn + settings.groupSuffix + rest, settings.groupSuffix, j)
    ensures ParseGroupId(settings.prefix + fqdn + settings.groupSuffix + rest, settings) == Some(fqdn)
  {
    var id := settings.prefix + fqdn + settings.groupSuffix + rest;
    var k := |settings.prefix| + |fqdn|;
    assert id[..|settings.prefix|] == settings.prefix;
    assert id[k..k + |settings.groupSuffix|] == settings.groupSuffix;
    FindAt(id, settings.groupSuffix, k);
    assert id[|settings.prefix|..k] == fqdn;
  }

  /** The same for `_roles_`, which is looked for only in an id without `_groups_`. */
  lemma ParseRecoversFqdnFromRole(settings: Settings, fqdn: string, rest: string)
    requires !Strings.Contains(settings.prefix + fqdn + settings.roleSuffix + rest, settings.groupSuffix)
    requires forall j :: 0 <= j < |settings.prefix| + |fqdn| ==>
      !Strings.MatchesAt(settings.prefix + fqdn + settings.roleSuffix + rest, settings.roleSuffix, j)
    ensures ParseGroupId(settings.prefix + fqdn + settings.roleSuffix + rest, settings) == Some(fqdn)
  {
    var id := settings.prefix + fqdn + settings.roleSuffix + rest;
    var k := |settings.prefix| + |fqdn|;
    assert id[..|settings.prefix|] == settings.prefix;
    assert id[k..k + |settings.roleSuffix|] == settings.roleSuffix;
    FindAt(id, settings.roleSuffix, k);
    assert id[|settings.prefix|..k] == fqdn;
  }

  /**
   * An id that does not open with the prefix, or holds neither suffix, is
   * not registered; an id that does always yields an fqdn.
   */
  lemma ParseAcceptsExactly(id: string, settings: Settings)
    ensures ParseGroupId(id, settings).Some? <==>
      Strings.StartsWith(id, settings.prefix)
      && exists j :: Strings.MatchesAt(id, settings.groupSuffix, j) || Strings.MatchesAt(id, settings.roleSuffix, j)
  {
    if Strings.StartsWith(id, settings.prefix) && exists j :: Strings.MatchesAt(id, settings.groupSuffix, j) || Strings.MatchesAt(id, settings.roleSuffix, j) {
      var j :| Strings.MatchesAt(id, settings.groupSuffix, j) || Strings.MatchesAt(id, settings.roleSuffix, j);
      assert Strings.Contains(id, settings.groupSuffix) || Strings.Contains(id, settings.roleSuffix);
    }
  }

  /**
   * With the shipped settings a suffix that begins inside the prefix gives
   * the empty fqdn: the system administrators' group `jc_roles_sys` parses to
   * "", whose key is the bare suffix.
   */
  lemma SysAdminGroupParsesEmpty(sp: seq<(string, SpEntry)>)
    ensures ParseGroupId("jc_roles_sys", Defaults(sp)) == Some("")
  {
    var id := "jc_roles_sys";
    forall j ensures !Strings.MatchesAt(id, GroupIdGroupSuffix, j) {
      if j + 8 <= 12 {
        assert id[j + 1] != GroupIdGroupSuffix[1];
      }
    }
    assert id == "jc" + GroupIdRoleSuffix + "sys";
    assert id[2..9] == GroupIdRoleSuffix;
    FindAt(id, GroupIdRoleSuffix, 2) by {
      assert !Strings.MatchesAt(id, GroupIdRoleSuffix, 0) by { assert id[0] != '_'; }
      assert !Strings.MatchesAt(id, GroupIdRoleSuffix, 1) by { assert id[1] != '_'; }
    }
  }

  /** `[info['org_sp_fqdn'].replace('.', '_').replace('-', '_') for info in SP_AUTHORIZATION_DICT.values()]` */
  function ConfiguredFqdns(sps: seq<(string, SpEntry)>): (r: Result<seq<string>>)
    ensures r.Ok? <==> forall i :: 0 <= i < |sps| ==> sps[i].1.orgSpFqdn.Some?
    ensures r.Ok? ==> |r.value| == |sps| && forall i :: 0 <= i < |sps| ==> r.value[i] == Strings.Underscored(sps[i].1.orgSpFqdn.value)
    ensures r.Err? ==> r.error == KeyError("org_sp_fqdn")
  {
    if sps == [] then Ok([])
    else if sps[0].1.orgSpFqdn.None? then Err(KeyError("org_sp_fqdn"))
    else
      match ConfiguredFqdns(sps[1..])
      case Err(e) => Err(e)
      case Ok(rest) => Ok([Strings.Underscored(sps[0].1.orgSpFqdn.value)] + rest)
  }

  /** The store afterwards, what the call returned or raised, and the message it logged. */
  datatype Registration = Registration(db: Db, result: Result<()>, log: Option<string>)

  function Pushed(p: Reply<nat>, id: string): Registration {
    if p.result.Err? then Registration(p.db, Err(p.result.error), None)
    else Registration(p.db, Ok(()), Some(GroupIdSet(id)))
  }

  /**
   * Which message a well-formed id whose list is empty and whose fqdn is
   * not configured is logged with.  `LogAsWritten` is the code's: "is set",
   * although nothing was pushed; `LogIntended` logs "is not set".
   */
  datatype LogRule = LogAsWritten | LogIntended

  /** `set_group_id(group_id)`. */
  function Register(db: Db, settings: Settings, id: string, rule: LogRule): Registration {
    match ParseGroupId(id, settings)
    case None => Registration(db, Ok(()), Some(GroupIdNotSet(id)))
    case Some(fqdn) =>
      var key := fqdn + settings.gakuninGroupSuffix;
      var l := db.Lrange(key);
      if l.result.Err? then Registration(l.db, Err(l.result.error), None)
      else if |l.result.value| > 0 then
        if id in l.result.value then Registration(l.db, Ok(()), Some(GroupIdSet(id)))
        else Pushed(l.db.Rpush(key, id), id)
      else
        match ConfiguredFqdns(settings.spAuthorization)
        case Err(e) => Registration(l.db, Err(e), None)
        case Ok(fqdns) =>
          if fqdn in fqdns then Pushed(l.db.Rpush(key, id), id)
          else Registration(l.db, Ok(()), Some(if rule == LogAsWritten then GroupIdSet(id) else GroupIdNotSet(id)))
  }

  /** Registration keeps the store's invariant: expiries only on existing keys, all positive. */
  lemma RegisterKeepsValid(db: Db, settings: Settings, id: string, rule: LogRule)
    requires db.Valid()
    ensures Register(db, settings, id, rule).db.Valid()
  {
    if ParseGroupId(id, settings).Some? {
      var key := ParseGroupId(id, settings).value + settings.gakuninGroupSuffix;
      var l := db.Lrange(key);
      CommandsKeepValid(db, key, map[], 0, id);
      CommandsKeepValid(l.db, key, map[], 0, id);
      var r := Register(db, settings, id, rule);
      assert r.db == l.db || r.db == l.db.Rpush(key, id).db;
    }
  }

  /** The list under a key; a missing key reads as the empty list. */
  function ListAt(db: Db, key: string): seq<string> {
    if key in db.data && db.data[key].List? then db.data[key].items else []
  }

  /** The registration's key: the parsed fqdn followed by the suffix. */
  function KeyOf(fqdn: string, settings: Settings): string {
    fqdn + settings.gakuninGroupSuffix
  }

  /**
   * From `before` to `after` only `key` may change, expiries stay, and the
   * list under `key` either stays or gains `id` at its end, only when `id`
   * was not in it.
   */
  ghost predicate AtMostAppends(before: Db, after: Db, key: string, id: string) {
    && after.ttl == before.ttl
    && (forall k :: k != key ==> (k in after.data <==> k in before.data))
    && (forall k :: k != key && k in before.data ==> after.data[k] == before.data[k])
    && (ListAt(after, key) == ListAt(before, key)
        || (ListAt(after, key) == ListAt(before, key) + [id] && id !in ListAt(before, key)))
  }

  /**
   * RPUSH of an id not in the list keeps the frame of `AtMostAppends`; on a
   * connection that serves the command and a key that does not hold a hash
   * it appends the id and logs it as set, and otherwise the list stays and
   * the Redis error is raised.
   */
  lemma PushAppends(d: Db, key: string, id: string)
    requires id !in ListAt(d, key)
    ensures AtMostAppends(d, Pushed(d.Rpush(key, id), id).db, key, id)
    ensures var r := Pushed(d.Rpush(key, id), id);
      d.Healthy(1) && !(key in d.data && d.data[key].Hash?) ==>
        ListAt(r.db, key) == ListAt(d, key) + [id] && r.result == Ok(()) && r.log == Some(GroupIdSet(id))
    ensures var r := Pushed(d.Rpush(key, id), id);
      !d.Healthy(1) || (key in d.data && d.data[key].Hash?) ==>
        ListAt(r.db, key) == ListAt(d, key) && r.result.Err? && r.result.error.RedisError? && r.log.None?
  {
  }

  /**
   * A malformed id issues no command at all.  Otherwise only the one key is
   * read or written and expiries are untouched, and the list under the key
   * either stays as it was or gains the id at its end, only when the id was
   * not in it: no id is ever listed twice by this call.
   */
  lemma RegisterFrame(db: Db, settings: Settings, id: string, rule: LogRule)
    ensures var r := Register(db, settings, id, rule);
      && (ParseGroupId(id, settings).None? ==> r == Registration(db, Ok(()), Some(GroupIdNotSet(id))))
      && (ParseGroupId(id, settings).Some? ==> AtMostAppends(db, r.db, KeyOf(ParseGroupId(id, settings).value, settings), id))
  {
    match ParseGroupId(id, settings)
    case None =>
    case Some(fqdn) =>
      var key := KeyOf(fqdn, settings);
      var l := db.Lrange(key);
      assert l.db.data == db.data && l.db.ttl == db.ttl;
      if l.result.Ok? && id !in l.result.value {
        assert l.result.value == ListAt(db, key);
        PushAppends(l.db, key, id);
      }
  }

  /**
   * On a healthy connection, with the key not holding a hash, the decision
   * is exactly the one the code makes: a non-empty list gains the id unless
   * it is there; an empty list gains it when the fqdn is a configured
   * provider's, underscored; and an entry without `org_sp_fqdn` makes the
   * empty-list case raise KeyError.
   */
  lemma RegisterDecides(db: Db, settings: Settings, id: string, fqdn: string, rule: LogRule)
    requires ParseGroupId(id, settings) == Some(fqdn)
    requires db.Healthy(2)
    requires !(KeyOf(fqdn, settings) in db.data && db.data[KeyOf(fqdn, settings)].Hash?)
    ensures var key := KeyOf(fqdn, settings);
      var before := ListAt(db, key);
      var r := Register(db, settings, id, rule);
      var configured := ConfiguredFqdns(settings.spAuthorization);
      && (before != [] ==> r.result.Ok? && (ListAt(r.db, key) == before + [id] <==> id !in before))
      && (before == [] && configured.Err? ==> r.result == Err(KeyError("org_sp_fqdn")) && ListAt(r.db, key) == [])
      && (before == [] && configured.Ok? ==> r.result.Ok? && (ListAt(r.db, key) == [id] <==> fqdn in configured.value))
      && (r.result.Ok? && rule == LogAsWritten ==> r.log == Some(GroupIdSet(id)))
  {
    var key := KeyOf(fqdn, settings);
    var l := db.Lrange(key);
    assert !db.NextFails();
    assert !l.db.NextFails() by {
      assert l.db.faults == if |db.faults| > 0 then db.faults[1..] else [];
    }
  }

  /**
   * As written, an unconfigured fqdn with an empty list is logged as set
   * although the id is not stored.
   */
  lemma RegisterLogsSetWithoutPush(db: Db, settings: Settings, id: string, fqdn: string)
    requires ParseGroupId(id, settings) == Some(fqdn)
    requires db.Healthy(2)
    requires !(KeyOf(fqdn, settings) in db.data && db.data[KeyOf(fqdn, settings)].Hash?)
    requires ListAt(db, KeyOf(fqdn, settings)) == []
    requires ConfiguredFqdns(settings.spAuthorization).Ok? && fqdn !in ConfiguredFqdns(settings.spAuthorization).value
    ensures var r := Register(db, settings, id, LogAsWritten);
      r.log == Some(GroupIdSet(id)) && id !in ListAt(r.db, KeyOf(fqdn, settings))
  {
    RegisterDecides(db, settings, id, fqdn, LogAsWritten);
  }

  /**
   * With the intended rule the log tells the truth: a registration that
   * succeeds logs "is set" exactly when the id is in the list afterwards,
   * and "is not set" otherwise.
   */
  lemma RegisterLogsTruthfully(db: Db, settings: Settings, id: string, fqdn: string)
    requires ParseGroupId(id, settings) == Some(fqdn)
    requires db.Healthy(2)
    requires !(KeyOf(fqdn, settings) in db.data && db.data[KeyOf(fqdn, settings)].Hash?)
    ensures var r := Register(db, settings, id, LogIntended);
      r.result.Ok? ==>
        && (r.log == Some(GroupIdSet(id)) <==> id in ListAt(r.db, KeyOf(fqdn, settings)))
        && (r.log == Some(GroupIdNotSet(id)) <==> id !in ListAt(r.db, KeyOf(fqdn, settings)))
  {
    RegisterDecides(db, settings, id, fqdn, LogIntended);
    assert GroupIdSet(id) != GroupIdNotSet(id) by {
      assert |GroupIdSet(id)| != |GroupIdNotSet(id)|;
    }
  }

  /**
   * The two services share the key but not its type: once get-groups has
   * written its record (a hash) for an fqdn, registering a group id of that
   * fqdn raises WRONGTYPE and changes nothing.
   */
  lemma CacheRecordBlocksRegistration(db: Db, settings: Settings, fqdn: string, ids: seq<string>, now: string, rest: string, rule: LogRule)
    requires db.Healthy(3) && settings.groupsTtl > 0
    requires !Groups.HoldsList(db, Strings.Underscored(fqdn) + settings.gakuninGroupSuffix)
    requires forall j :: 0 <= j < |settings.prefix| + |fqdn| ==>
      !Strings.MatchesAt(settings.prefix + Strings.Underscored(fqdn) + settings.groupSuffix + rest, settings.groupSuffix, j)
    ensures var w := GetGroups.LegacyWrite(db, Strings.Underscored(fqdn), ids, settings, now);
      var r := Register(w.db, settings, settings.prefix + Strings.Underscored(fqdn) + settings.groupSuffix + rest, rule);
      r.result == Err(WrongType) && r.db.data == w.db.data && r.db.ttl == w.db.ttl
  {
    var u := Strings.Underscored(fqdn);
    ParseRecoversFqdn(settings, u, rest);
    GetGroups.LegacyWriteHealthy(db, u, ids, settings, now);
    var w := GetGroups.LegacyWrite(db, u, ids, settings, now);
    var h := db.Hset(u + settings.gakuninGroupSuffix, Groups.CacheRecord(ids, now));
    NextHealthy(db, 2);
    NextHealthy(db.Next(), 1);
    assert h.db.faults == db.Next().faults;
    assert w.db.faults == db.Next().Next().faults;
  }

  /** `set_group_id`, issuing LRANGE and at most one RPUSH on the connection. */
  method SetGroupId(store: Store, settings: Settings, id: string, rule: LogRule) returns (r: Result<()>, log: Option<string>)
    modifies store
    ensures Register(old(store.State()), settings, id, rule) == Registration(store.State(), r, log)
  {
    var fqdn := ParseGroupId(id, settings);
    if fqdn.None? {
      return Ok(()), Some(GroupIdNotSet(id));
    }
    var redisKey := fqdn.value + settings.gakuninGroupSuffix;
    var groups := store.Lrange(redisKey);
    if groups.Err? {
      return Err(groups.error), None;
    }
    if |groups.value| > 0 {
      if id !in groups.value {
        var pushed := store.Rpush(redisKey, id);
        if pushed.Err? {
          return Err(pushed.error), None;
        }
      }
    } else {
      var fqdnList := ConfiguredFqdns(settings.spAuthorization);
      if fqdnList.Err? {
        return Err(fqdnList.error), None;
      }
      if fqdn.value in fqdnList.value {
        var pushed := store.Rpush(redisKey, id);
        if pushed.Err? {
          return Err(pushed.error), None;
        }
      } else if rule == LogIntended {
        return Ok(()), Some(GroupIdNotSet(id));
      }
    }
    return Ok(()), Some(GroupIdSet(id));
  }
}
