/** The records the sequence-grant resource works with: the configuration
    block, the identity kept as the resource ID, and the kind of grant that
    is handed to the statement builders. */
module GrantModel {
  import opened Wrappers

  /** The privileges a sequence grant may name, and the one used when the
      block names none. */
  const Ownership: string := "OWNERSHIP"
  const Usage: string := "USAGE"
  const ValidSequencePrivileges: set<string> := {Ownership, Usage}
  const DefaultPrivilege: string := Usage

  /** A sequence_grant block once defaults are applied. An unset
      `schemaName` or `sequenceName` reads as "", exactly like an explicit
      empty string. */
  datatype Config = Config(
    databaseName: string,
    schemaName: string,
    sequenceName: string,
    privilege: string,
    onFuture: bool,
    withGrantOption: bool)

  /** The block as written: every field but the database may be absent. */
  datatype RawConfig = RawConfig(
    databaseName: string,
    schemaName: Option<string>,
    sequenceName: Option<string>,
    privilege: Option<string>,
    onFuture: Option<bool>,
    withGrantOption: Option<bool>)

  /** The declared-privilege check, comparing names exactly. */
  predicate PrivilegeAllowed(raw: RawConfig) {
    raw.privilege.None? || raw.privilege.value in ValidSequencePrivileges
  }

  /** Applies the declared defaults: no names, privilege USAGE, and both
      flags off. A field that is set keeps its value. */
  function Resolve(raw: RawConfig): (c: Config)
    ensures c.databaseName == raw.databaseName
    ensures raw.schemaName.None? ==> c.schemaName == ""
    ensures raw.schemaName.Some? ==> c.schemaName == raw.schemaName.value
    ensures raw.sequenceName.None? ==> c.sequenceName == ""
    ensures raw.sequenceName.Some? ==> c.sequenceName == raw.sequenceName.value
    ensures raw.privilege.None? ==> c.privilege == DefaultPrivilege
    ensures raw.privilege.Some? ==> c.privilege == raw.privilege.value
    ensures raw.onFuture.None? ==> !c.onFuture
    ensures raw.onFuture.Some? ==> c.onFuture == raw.onFuture.value
    ensures raw.withGrantOption.None? ==> !c.withGrantOption
    ensures raw.withGrantOption.Some? ==> c.withGrantOption == raw.withGrantOption.value
    ensures PrivilegeAllowed(raw) <==> c.privilege in ValidSequencePrivileges
    ensures raw == Explicit(c) <==> raw.schemaName.Some? && raw.sequenceName.Some? && raw.privilege.Some?
                                    && raw.onFuture.Some? && raw.withGrantOption.Some?
  {
    Config(
      raw.databaseName,
      raw.schemaName.GetOr(""),
      raw.sequenceName.GetOr(""),
      raw.privilege.GetOr(DefaultPrivilege),
      raw.onFuture.GetOr(false),
      raw.withGrantOption.GetOr(false))
  }

  /** The block that spells out every field of `c`. */
  function Explicit(c: Config): RawConfig {
    RawConfig(c.databaseName, Some(c.schemaName), Some(c.sequenceName),
              Some(c.privilege), Some(c.onFuture), Some(c.withGrantOption))
  }

  /** The identity Create records as the resource ID. Its string encoding is
      not part of this model. */
  datatype GrantId = GrantId(
    resourceName: string,
    schemaName: string,
    objectName: string,
    privilege: string,
    grantOption: bool)

  /** The kind of grant handed to the statement builders: future sequences
      of a schema (of the whole database when `schema` is ""), or one named
      sequence. */
  datatype Mode =
    | Future(database: string, schema: string)
    | Specific(database: string, schema: string, sequence: string)

  /** The builder choice Create, Read and Delete each make. */
  function Builder(future: bool, database: string, schema: string, sequence: string): Mode {
    if future then Future(database, schema) else Specific(database, schema, sequence)
  }
}
