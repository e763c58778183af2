/**
 * The get-groups service (app/get-groups/get_groups/utils.py): find the
 * service provider's settings for an fqdn, check them in a fixed order,
 * fetch its groups from the group API and write them under
 * `fqdn + GAKUNIN_GROUP_SUFFIX` with an expiry.
 */
module GetGroups {
  import opened Wrappers
  import opened Exc
  import opened Redis
  import opened Http
  import opened AppConfig
  import Strings
  import Groups

  // ---------------------------------------------------------------------------
  // get_groups_from_gakunin
  // ---------------------------------------------------------------------------

  /** Every entry before position `n` names an fqdn, and none of them is `fqdn`. */
  predicate PassedOver(sps: seq<(string, SpEntry)>, fqdn: string, n: nat)
    requires n <= |sps|
  {
    forall j :: 0 <= j < n ==> sps[j].1.orgSpFqdn.Some? && sps[j].1.orgSpFqdn.value != fqdn
  }

  /**
   * The search over `SP_AUTHORIZATION_DICT` from position `k`: the first
   * entry whose `org_sp_fqdn` is `fqdn`, none, or the KeyError of an entry
   * without `org_sp_fqdn` met before any match.
   */
  function FindSpFrom(sps: seq<(string, SpEntry)>, fqdn: string, k: nat): (r: Result<Option<nat>>)
    requires k <= |sps|
    ensures r.Ok? && r.value.Some? ==> k <= r.value.value < |sps| && sps[r.value.value].1.orgSpFqdn == Some(fqdn)
    ensures r.Err? ==> r.error == KeyError("org_sp_fqdn")
    decreases |sps| - k
  {
    if k == |sps| then Ok(None)
    else if sps[k].1.orgSpFqdn.None? then Err(KeyError("org_sp_fqdn"))
    else if sps[k].1.orgSpFqdn.value == fqdn then Ok(Some(k))
    else FindSpFrom(sps, fqdn, k + 1)
  }

  function FindSp(sps: seq<(string, SpEntry)>, fqdn: string): Result<Option<nat>> {
    FindSpFrom(sps, fqdn, 0)
  }

  /**
   * The lookup selects the first entry naming `fqdn`; it finds none only
   * when every entry names another fqdn; and it fails only on an entry
   * without `org_sp_fqdn` that comes before any match.
   */
  lemma {:induction false} FindSpFirst(sps: seq<(string, SpEntry)>, fqdn: string, k: nat)
    requires k <= |sps| && PassedOver(sps, fqdn, k)
    ensures var r := FindSpFrom(sps, fqdn, k);
      && (r == Ok(None) <==> PassedOver(sps, fqdn, |sps|))
      && (forall i :: 0 <= i < |sps| ==> (r == Ok(Some(i)) <==> sps[i].1.orgSpFqdn == Some(fqdn) && PassedOver(sps, fqdn, i)))
      && (r.Err? <==> exists i :: 0 <= i < |sps| && sps[i].1.orgSpFqdn.None? && PassedOver(sps, fqdn, i))
    decreases |sps| - k
  {
    if k < |sps| {
      if sps[k].1.orgSpFqdn.None? {
        assert !PassedOver(sps, fqdn, |sps|);
      } else if sps[k].1.orgSpFqdn.value == fqdn {
        assert !PassedOver(sps, fqdn, |sps|);
        assert forall i :: k < i < |sps| ==> !PassedOver(sps, fqdn, i);
      } else {
        assert PassedOver(sps, fqdn, k + 1);
        FindSpFirst(sps, fqdn, k + 1);
      }
    }
  }

  /** The five checks on the selected settings, in the order the code makes them. */
  datatype Guard = ConnectorId | CertSetting | CertFile | KeySetting | KeyFile

  function Rank(g: Guard): nat {
    match g
    case ConnectorId => 0
    case CertSetting => 1
    case CertFile => 2
    case KeySetting => 3
    case KeyFile => 4
  }

  /** The check passes: the setting is truthy, or the file it names exists. */
  predicate Holds(g: Guard, sp: SpEntry, existing: set<string>) {
    match g
    case ConnectorId => Truthy(sp.spConnectorId)
    case CertSetting => Truthy(sp.tlsClientCert)
    case CertFile => sp.tlsClientCert.Some? && sp.tlsClientCert.value in existing
    case KeySetting => Truthy(sp.tlsClientKey)
    case KeyFile => sp.tlsClientKey.Some? && sp.tlsClientKey.value in existing
  }

  /** The first check that fails, if any: the one that decides the error. */
  function FailingGuard(sp: SpEntry, existing: set<string>): (g: Option<Guard>)
    ensures g.None? ==> forall h :: Holds(h, sp, existing)
    ensures g.Some? ==> !Holds(g.value, sp, existing) && forall h :: Rank(h) < Rank(g.value) ==> Holds(h, sp, existing)
  {
    if !Truthy(sp.spConnectorId) then Some(ConnectorId)
    else if !Truthy(sp.tlsClientCert) then Some(CertSetting)
    else if sp.tlsClientCert.value !in existing then Some(CertFile)
    else if !Truthy(sp.tlsClientKey) then Some(KeySetting)
    else if sp.tlsClientKey.value !in existing then Some(KeyFile)
    else None
  }

  /**
   * The error a failed check raises.  The shipped message module has no
   * template for the two client-key checks, so formatting their message
   * raises AttributeError before the intended exception is built.
   */
  function GuardError(g: Guard, fqdn: string, sp: SpEntry, messages: MessageTable): PyError {
    match g
    case ConnectorId => PlainException(SpConnectorIdNotFound(fqdn))
    case CertSetting => PlainException(TlsClientCertNotFound(fqdn))
    case CertFile => PlainException(TlsClientCertFileNotFound(Setting(sp.tlsClientCert)))
    case KeySetting =>
      if messages.Shipped? then AttributeError(MissingTemplate("TLS_CLIENT_KEY_NOT_FOUND"))
      else PlainException(TlsClientKeyNotFound(fqdn))
    case KeyFile =>
      if messages.Shipped? then AttributeError(MissingTemplate("TLS_CLIENT_KEY_FILE_NOT_FOUND"))
      else PlainException(TlsClientKeyFileNotFound(Setting(sp.tlsClientKey)))
  }

  /** The request for the selected settings: no timeout is passed. */
  function GakuninRequest(settings: Settings, sp: SpEntry): (req: Request)
    ensures req.timeout.None?
    ensures req.cert == Setting(sp.tlsClientCert) && req.key == Setting(sp.tlsClientKey)
    ensures PlainSegment(Setting(sp.spConnectorId)) ==> Strings.LastSegment(req.url) == Setting(sp.spConnectorId)
  {
    UrlJoinLastSegment(settings.groupsApiUrl, Setting(sp.spConnectorId));
    Request(UrlJoin(settings.groupsApiUrl, Setting(sp.spConnectorId)), Setting(sp.tlsClientCert), Setting(sp.tlsClientKey), None)
  }

  /** `response.raise_for_status()` then `response.json()['entry']`. */
  function EntriesOf(resp: Response): (r: Result<seq<Entry>>)
    ensures r.Ok? <==> resp.Http? && !(400 <= resp.status < 600) && resp.body.Object? && resp.body.entry.Some?
    ensures r.Ok? ==> r.value == resp.body.entry.value
    ensures resp.Http? && !(400 <= resp.status < 600) && resp.body.Object? && resp.body.entry.None? ==> r == Err(KeyError("entry"))
    ensures resp.TransportFailure? || 400 <= resp.status < 600 ==> r.Err? && r.error.RequestException?
  {
    match CheckedBody(resp)
    case Err(e) => Err(e)
    case Ok(body) =>
      match body
      case NotJson => Err(JsonDecodeFailure)
      case NotObject => Err(TypeError("list indices must be integers or slices, not str"))
      case Object(entry) => if entry.Some? then Ok(entry.value) else Err(KeyError("entry"))
  }

  /** `get_groups_from_gakunin(fqdn)`: lookup, checks, then one request. */
  function GakuninEntries(settings: Settings, fqdn: string, existing: set<string>, api: Api, messages: MessageTable): Result<seq<Entry>> {
    match FindSp(settings.spAuthorization, fqdn)
    case Err(e) => Err(e)
    case Ok(found) =>
      if found.None? then Err(PlainException(FqdnNotFound(fqdn)))
      else
        var sp := settings.spAuthorization[found.value].1;
        match FailingGuard(sp, existing)
        case Some(g) => Err(GuardError(g, fqdn, sp, messages))
        case None => EntriesOf(api(GakuninRequest(settings, sp), 0))
  }

  /**
   * The API is consulted only for a configured fqdn whose settings pass
   * every check: two APIs can make the outcome differ only then, and the
   * one request made is for the first matching entry.
   */
  lemma RequestOnlyAfterChecks(settings: Settings, fqdn: string, existing: set<string>, api: Api, other: Api, messages: MessageTable)
    requires GakuninEntries(settings, fqdn, existing, api, messages) != GakuninEntries(settings, fqdn, existing, other, messages)
    ensures var found := FindSp(settings.spAuthorization, fqdn);
      && found.Ok? && found.value.Some?
      && var i := found.value.value;
         && settings.spAuthorization[i].1.orgSpFqdn == Some(fqdn)
         && PassedOver(settings.spAuthorization, fqdn, i)
         && (forall h :: Holds(h, settings.spAuthorization[i].1, existing))
  {
    var found := FindSp(settings.spAuthorization, fqdn);
    FindSpFirst(settings.spAuthorization, fqdn, 0);
    assert found.Ok? && found.value.Some?;
    var i := found.value.value;
    assert FailingGuard(settings.spAuthorization[i].1, existing).None?;
  }

  /**
   * A failing check decides the error, in check order, whatever the API
   * would have answered.
   */
  lemma FirstFailingCheckDecides(settings: Settings, fqdn: string, existing: set<string>, api: Api, messages: MessageTable, i: nat, g: Guard)
    requires i < |settings.spAuthorization|
    requires settings.spAuthorization[i].1.orgSpFqdn == Some(fqdn) && PassedOver(settings.spAuthorization, fqdn, i)
    requires !Holds(g, settings.spAuthorization[i].1, existing)
    requires forall h :: Rank(h) < Rank(g) ==> Holds(h, settings.spAuthorization[i].1, existing)
    ensures GakuninEntries(settings, fqdn, existing, api, messages) == Err(GuardError(g, fqdn, settings.spAuthorization[i].1, messages))
  {
    FindSpFirst(settings.spAuthorization, fqdn, 0);
    var sp := settings.spAuthorization[i].1;
    var f := FailingGuard(sp, existing);
    assert f.Some?;
    assert !(Rank(g) < Rank(f.value));
    assert !(Rank(f.value) < Rank(g));
  }

  /**
   * The two client-key checks: as shipped they raise AttributeError, which
   * is not the plain exception every other check raises; with the templates
   * completed each check raises a plain exception, and the five messages are
   * pairwise different.
   */
  lemma KeyCheckMessages(fqdn: string, sp: SpEntry)
    ensures GuardError(KeySetting, fqdn, sp, Shipped).AttributeError?
    ensures GuardError(KeyFile, fqdn, sp, Shipped).AttributeError?
    ensures forall g :: GuardError(g, fqdn, sp, Completed).PlainException?
    ensures forall g, h :: g != h ==> GuardError(g, fqdn, sp, Completed) != GuardError(h, fqdn, sp, Completed)
  {
    forall g, h | g != h ensures GuardError(g, fqdn, sp, Completed) != GuardError(h, fqdn, sp, Completed) {
      var a := GuardError(g, fqdn, sp, Completed).message;
      var b := GuardError(h, fqdn, sp, Completed).message;
      var k := if g == ConnectorId || h == ConnectorId then 0
        else if IsCertCheck(g) != IsCertCheck(h) then 11
        else if IsCertCheck(g) then 15
        else 14;
      MessageMarks(g, fqdn, sp);
      MessageMarks(h, fqdn, sp);
      assert a[k] != b[k];
    }
  }

  /** Characters that tell the completed messages apart: the 1st, the 12th, and the 15th or 16th. */
  lemma MessageMarks(g: Guard, fqdn: string, sp: SpEntry)
    ensures var m := GuardError(g, fqdn, sp, Completed).message;
      && |m| > 15
      && m[0] == (if g == ConnectorId then 's' else 't')
      && (g != ConnectorId ==> m[11] == if IsCertCheck(g) then 'c' else 'k')
      && (g == CertSetting ==> m[15] == ' ') && (g == CertFile ==> m[15] == '(')
      && (g == KeySetting ==> m[14] == ' ') && (g == KeyFile ==> m[14] == '(')
  {
    var m := GuardError(g, fqdn, sp, Completed).message;
    match g
    case ConnectorId =>
      var name := "sp_connector_id";
      assert m == name + (NotInConfig + fqdn + ").");
      assert m[0] == name[0];
    case CertSetting =>
      var name := "tls_client_cert";
      assert m == name + (NotInConfig + fqdn + ").");
      assert m[0] == name[0] && m[11] == name[11] && m[15] == NotInConfig[0];
    case CertFile =>
      var name := "tls_client_cert";
      assert m == name + ("(" + Setting(sp.tlsClientCert) + ") is not found.");
      assert m[0] == name[0] && m[11] == name[11];
    case KeySetting =>
      var name := "tls_client_key";
      assert m == name + (NotInConfig + fqdn + ").");
      assert m[0] == name[0] && m[11] == name[11] && m[14] == NotInConfig[0];
    case KeyFile =>
      var name := "tls_client_key";
      assert m == name + ("(" + Setting(sp.tlsClientKey) + ") is not found.");
      assert m[0] == name[0] && m[11] == name[11];
  }

  predicate IsCertCheck(g: Guard) {
    g == CertSetting || g == CertFile
  }

  /** `get_groups_from_gakunin`: a for/break search over the settings, then the checks, then the request. */
  method GetGroupsFromGakunin(settings: Settings, fqdn: string, existing: set<string>, api: Api, messages: MessageTable) returns (r: Result<seq<Entry>>)
    ensures r == GakuninEntries(settings, fqdn, existing, api, messages)
  {
    var sps := settings.spAuthorization;
    var target: Option<SpEntry> := None;
    var i := 0;
    while i < |sps|
      invariant 0 <= i <= |sps|
      invariant FindSp(sps, fqdn) == FindSpFrom(sps, fqdn, i)
    {
      var value := sps[i].1;
      if value.orgSpFqdn.None? {
        return Err(KeyError("org_sp_fqdn"));
      }
      if value.orgSpFqdn.value == fqdn {
        target := Some(value);
        break;
      }
      i := i + 1;
    }
    if target.None? {
      return Err(PlainException(FqdnNotFound(fqdn)));
    }
    var sp := target.value;
    if !Truthy(sp.spConnectorId) {
      return Err(GuardError(ConnectorId, fqdn, sp, messages));
    }
    if !Truthy(sp.tlsClientCert) {
      return Err(GuardError(CertSetting, fqdn, sp, messages));
    }
    if sp.tlsClientCert.value !in existing {
      return Err(GuardError(CertFile, fqdn, sp, messages));
    }
    if !Truthy(sp.tlsClientKey) {
      return Err(GuardError(KeySetting, fqdn, sp, messages));
    }
    if sp.tlsClientKey.value !in existing {
      return Err(GuardError(KeyFile, fqdn, sp, messages));
    }
    var response := api(GakuninRequest(settings, sp), 0);
    r := EntriesOf(response);
  }

  // ---------------------------------------------------------------------------
  // set_groups
  // ---------------------------------------------------------------------------

  /** `group['id'].split('/')[-1]` for every entry, in order; an entry without `id` raises KeyError. */
  function GroupIdList(entries: seq<Entry>): (r: Result<seq<string>>)
    ensures r.Ok? ==> |r.value| == |entries|
    ensures r.Err? ==> r.error == KeyError("id")
    decreases |entries|
  {
    if entries == [] then Ok([])
    else
      var n := |entries| - 1;
      match GroupIdList(entries[..n])
      case Err(e) => Err(e)
      case Ok(ids) =>
        if entries[n].id.None? then Err(KeyError("id"))
        else Ok(ids + [Strings.LastSegment(entries[n].id.value)])
  }

  /**
   * The list succeeds exactly when every entry has an id; it then agrees
   * with the newer extraction, which drops id-less entries instead of
   * raising.
   */
  lemma {:induction false} GroupIdListAgrees(entries: seq<Entry>)
    ensures GroupIdList(entries).Ok? <==> forall i :: 0 <= i < |entries| ==> entries[i].id.Some?
    ensures GroupIdList(entries).Ok? ==> GroupIdList(entries).value == Groups.GroupIds(entries)
    decreases |entries|
  {
    if entries != [] {
      var n := |entries| - 1;
      GroupIdListAgrees(entries[..n]);
      if GroupIdList(entries).Ok? {
        assert entries == entries[..n] + [entries[n]];
        Groups.GroupIdsAppend(entries[..n], [entries[n]]);
        assert Groups.GroupIds([entries[n]]) == [Strings.LastSegment(entries[n].id.value)];
      } else if GroupIdList(entries[..n]).Ok? {
        assert entries[n].id.None?;
      } else {
        var j :| 0 <= j < n && entries[..n][j].id.None?;
        assert entries[j].id.None?;
      }
    }
  }

  /** A missing id stops the extraction for good. */
  lemma {:induction false} GroupIdListErrSticky(entries: seq<Entry>, i: nat)
    requires i <= |entries| && GroupIdList(entries[..i]).Err?
    ensures GroupIdList(entries) == GroupIdList(entries[..i])
    decreases |entries| - i
  {
    if i < |entries| {
      assert entries[..i + 1][..i] == entries[..i];
      GroupIdListErrSticky(entries, i + 1);
    } else {
      assert entries[..i] == entries;
    }
  }

  /** The for/append loop of `set_groups`. */
  method CollectGroupIds(entries: seq<Entry>) returns (r: Result<seq<string>>)
    ensures r == GroupIdList(entries)
  {
    var groupIdList: seq<string> := [];
    var i := 0;
    while i < |entries|
      invariant 0 <= i <= |entries|
      invariant GroupIdList(entries[..i]) == Ok(groupIdList)
    {
      assert entries[..i + 1][..i] == entries[..i];
      if entries[i].id.None? {
        GroupIdListErrSticky(entries, i + 1);
        return Err(KeyError("id"));
      }
      groupIdList := groupIdList + [Strings.LastSegment(entries[i].id.value)];
      i := i + 1;
    }
    assert entries[..i] == entries;
    return Ok(groupIdList);
  }

  /** This service's `set_groups_to_redis`: HSET of both fields under `fqdn + suffix`, then EXPIRE, never PERSIST. */
  function LegacyWrite(db: Db, fqdn: string, ids: seq<string>, settings: Settings, now: string): Reply<()> {
    var key := fqdn + settings.gakuninGroupSuffix;
    var h := db.Hset(key, Groups.CacheRecord(ids, now));
    if h.result.Err? then Reply(h.db, Err(h.result.error))
    else
      var e := h.db.Expire(key, settings.groupsTtl);
      Reply(e.db, if e.result.Err? then Err(e.result.error) else Ok(()))
  }

  /**
   * On a healthy connection the write succeeds under exactly
   * `fqdn + GAKUNIN_GROUP_SUFFIX`: the record gains both fields and the
   * configured expiry when that is positive, and is deleted when it is not.
   * No other key changes.
   */
  lemma LegacyWriteHealthy(db: Db, fqdn: string, ids: seq<string>, settings: Settings, now: string)
    requires db.Healthy(2)
    requires !Groups.HoldsList(db, fqdn + settings.gakuninGroupSuffix)
    ensures var key := fqdn + settings.gakuninGroupSuffix;
      var w := LegacyWrite(db, fqdn, ids, settings, now);
      && w.result.Ok?
      && (settings.groupsTtl > 0 ==>
            && w.db.data == db.data[key := Hash(Groups.FieldsAt(db, key) + Groups.CacheRecord(ids, now))]
            && w.db.ttl == db.ttl[key := settings.groupsTtl])
      && (settings.groupsTtl <= 0 ==> w.db.data == db.data - {key} && w.db.ttl == db.ttl - {key})
  {
    var key := fqdn + settings.gakuninGroupSuffix;
    var h := db.Hset(key, Groups.CacheRecord(ids, now));
    assert !db.NextFails();
    assert !h.db.NextFails() by {
      assert h.db.faults == if |db.faults| > 0 then db.faults[1..] else [];
    }
    if settings.groupsTtl <= 0 {
      assert (db.data - {key})[key := Hash(Groups.FieldsAt(db, key) + Groups.CacheRecord(ids, now))] - {key} == db.data - {key};
    }
  }

  /**
   * On a negative TTL the two writers part ways: the newer one keeps the
   * record with no expiry, this one deletes it.  Both write under the same
   * key once the fqdn is underscored and the suffixes agree.
   */
  lemma WritersDisagreeOnNegativeTtl(db: Db, fqdn: string, ids: seq<string>, settings: Settings, env: Groups.Env)
    requires db.Healthy(3)
    requires env.cfg.cacheTtl < 0 && settings.groupsTtl < 0
    requires env.cfg.cacheKeySuffix == settings.gakuninGroupSuffix
    requires !Groups.HoldsList(db, Groups.CacheKey(fqdn, env.cfg.cacheKeySuffix))
    ensures var key := Groups.CacheKey(fqdn, env.cfg.cacheKeySuffix);
      var current := Groups.WriteGroups(db, fqdn, ids, env);
      var legacy := LegacyWrite(db, Strings.Underscored(fqdn), ids, settings, env.now);
      && key == Strings.Underscored(fqdn) + settings.gakuninGroupSuffix
      && current.result.Ok? && legacy.result.Ok?
      && key in current.db.data && key !in current.db.ttl
      && key !in legacy.db.data
  {
    Groups.WriteGroupsHealthy(db, fqdn, ids, env);
    LegacyWriteHealthy(db, Strings.Underscored(fqdn), ids, settings, env.now);
  }

  /** `set_groups(fqdn)`: fetch, extract the ids, underscore the fqdn, write. */
  function SetGroupsSpec(db: Db, settings: Settings, fqdn: string, existing: set<string>, api: Api, now: string, messages: MessageTable): Reply<()> {
    match GakuninEntries(settings, fqdn, existing, api, messages)
    case Err(e) => Reply(db, Err(e))
    case Ok(entries) =>
      match GroupIdList(entries)
      case Err(e) => Reply(db, Err(e))
      case Ok(ids) => LegacyWrite(db, Strings.Underscored(fqdn), ids, settings, now)
  }

  /**
   * A fetch whose entries all carry ids, written over a healthy connection
   * with a positive TTL, leaves under the underscored key a `groups` field
   * that splits back into the group ids, in entry order.  No store command
   * is issued when the fetch or the extraction fails.
   */
  lemma SetGroupsStoresIds(db: Db, settings: Settings, fqdn: string, existing: set<string>, api: Api, now: string, messages: MessageTable)
    requires db.Healthy(2) && settings.groupsTtl > 0
    requires !Groups.HoldsList(db, Strings.Underscored(fqdn) + settings.gakuninGroupSuffix)
    ensures var s := SetGroupsSpec(db, settings, fqdn, existing, api, now, messages);
      var fetched := GakuninEntries(settings, fqdn, existing, api, messages);
      var key := Strings.Underscored(fqdn) + settings.gakuninGroupSuffix;
      && (s.result.Ok? <==> fetched.Ok? && forall i :: 0 <= i < |fetched.value| ==> fetched.value[i].id.Some?)
      && (s.result.Err? ==> s.db == db)
      && (s.result.Ok? ==>
            && key in s.db.data && s.db.data[key].Hash?
            && s.db.data[key].fields["groups"] == Strings.Join(Groups.GroupIds(fetched.value), ",")
            && s.db.ttl[key] == settings.groupsTtl)
  {
    var fetched := GakuninEntries(settings, fqdn, existing, api, messages);
    if fetched.Ok? {
      GroupIdListAgrees(fetched.value);
      var ids := GroupIdList(fetched.value);
      if ids.Ok? {
        LegacyWriteHealthy(db, Strings.Underscored(fqdn), ids.value, settings, now);
      }
    }
  }

  /** This service's `set_groups_to_redis`, on the shared connection. */
  method SetGroupsToRedis(store: Store, fqdn: string, ids: seq<string>, settings: Settings, now: string) returns (r: Result<()>)
    modifies store
    ensures LegacyWrite(old(store.State()), fqdn, ids, settings, now) == Reply(store.State(), r)
  {
    var key := fqdn + settings.gakuninGroupSuffix;
    var h := store.Hset(key, Groups.CacheRecord(ids, now));
    if h.Err? {
      return Err(h.error);
    }
    var e := store.Expire(key, settings.groupsTtl);
    if e.Err? {
      return Err(e.error);
    }
    return Ok(());
  }

  method SetGroups(store: Store, settings: Settings, fqdn: string, existing: set<string>, api: Api, now: string, messages: MessageTable) returns (r: Result<()>)
    modifies store
    ensures SetGroupsSpec(old(store.State()), settings, fqdn, existing, api, now, messages) == Reply(store.State(), r)
  {
    var groups := GetGroupsFromGakunin(settings, fqdn, existing, api, messages);
    if groups.Err? {
      return Err(groups.error);
    }
    var groupIdList := CollectGroupIds(groups.value);
    if groupIdList.Err? {
      return Err(groupIdList.error);
    }
    var normalized := Strings.Underscored(fqdn);
    r := SetGroupsToRedis(store, normalized, groupIdList.value, settings, now);
  }
}
