/**
 * The settings the two small services (get-groups and new-group) share
 * through their `config` package, and the message templates of its
 * `messages` module.  Every value the code reads is a field or a constant
 * here; `SP_AUTHORIZATION_DICT` keeps its key order as a sequence of pairs.
 */
module AppConfig {
  import opened Wrappers

  /** One value of `SP_AUTHORIZATION_DICT`: each of its four keys may be absent. */
  datatype SpEntry = SpEntry(
    orgSpFqdn: Option<string>,
    spConnectorId: Option<string>,
    tlsClientCert: Option<string>,
    tlsClientKey: Option<string>)

  datatype Settings = Settings(
    spAuthorization: seq<(string, SpEntry)>,
    groupsApiUrl: string,
    gakuninGroupSuffix: string,
    groupsTtl: int,
    prefix: string,
    groupSuffix: string,
    roleSuffix: string)

  const GroupIdPrefix: string := "jc_"
  const GroupIdGroupSuffix: string := "_groups_"
  const GroupIdRoleSuffix: string := "_roles_"
  const GakuninGroupSuffix: string := "_gakunin_groups"
  const GroupsApiUrl: string := "https://cg.gakunin.jp/api/groups/"
  const GroupsTtl: int := 86400

  /** The shipped settings around a given authorization table. */
  function Defaults(sp: seq<(string, SpEntry)>): Settings {
    Settings(sp, GroupsApiUrl, GakuninGroupSuffix, GroupsTtl, GroupIdPrefix, GroupIdGroupSuffix, GroupIdRoleSuffix)
  }

  /** Python truthiness of a setting that may be absent: present and not empty. */
  predicate Truthy(o: Option<string>) {
    o.Some? && o.value != ""
  }

  /** The value of a setting known to be present. */
  function Setting(o: Option<string>): string {
    if o.Some? then o.value else ""
  }

  /**
   * The message module as it ships, which lacks the two templates for the
   * client key, or with those two completed like their client-certificate
   * counterparts.
   */
  datatype MessageTable = Shipped | Completed

  function FqdnNotFound(fqdn: string): string { "FQDN(" + fqdn + ") is not found in config." }

  /** The messages of the five checks name the setting first. */
  const NotInConfig: string := " is not found in config for FQDN("
  function SpConnectorIdNotFound(fqdn: string): string { "sp_connector_id" + NotInConfig + fqdn + ")." }
  function TlsClientCertNotFound(fqdn: string): string { "tls_client_cert" + NotInConfig + fqdn + ")." }
  function TlsClientCertFileNotFound(path: string): string { "tls_client_cert" + "(" + path + ") is not found." }
  function TlsClientKeyNotFound(fqdn: string): string { "tls_client_key" + NotInConfig + fqdn + ")." }
  function TlsClientKeyFileNotFound(path: string): string { "tls_client_key" + "(" + path + ") is not found." }

  /** What looking up a missing template raises. */
  function MissingTemplate(name: string): string { "module 'config.messages' has no attribute '" + name + "'" }

  const CreateTaskSuccess: string := "All set_groups_task are created."
  const CreateTaskFailed: string := "Error occurred in create_set_groups_task."
  function FqdnNotDefined(org: string): string { "FQDN is not defined in config for " + org + "." }
  function TaskSuccess(fqdn: string): string { "FQDN(" + fqdn + ") is success." }
  function TaskFailed(fqdn: string): string { "FQDN(" + fqdn + ") is failed." }

  function GroupIdSet(id: string): string { "Group ID(" + id + ") is set to Redis." }
  function GroupIdNotSet(id: string): string { "Group ID(" + id + ") is not set to Redis." }
}
