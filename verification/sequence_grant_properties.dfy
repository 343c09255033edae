/** How Create, Read and Delete of a sequence grant relate to one another. */
module SequenceGrantProperties {
  import opened Wrappers
  import opened GrantModel
  import opened SequenceGrant

  /** Each guard reports its own error text. */
  lemma MessagesDistinct(k1: Check, k2: Check)
    ensures Message(k1) == Message(k2) <==> k1 == k2
  {
  }

  /** With on_future left at its default, Create accepts a block only when it
      names both a schema and a sequence. */
  lemma DefaultFlagNeedsBothNames(raw: RawConfig)
    requires raw.onFuture.None?
    ensures Validate(Resolve(raw)).Pass? <==>
      raw.schemaName.Some? && raw.schemaName.value != "" &&
      raw.sequenceName.Some? && raw.sequenceName.value != ""
  {
  }

  /** Only the flag, the database, the schema and (for a specific grant) the
      sequence decide the builder; privilege and grant option do not. */
  lemma SelectModeDependsOnlyOnTarget(c1: Config, c2: Config)
    requires c1.onFuture == c2.onFuture
    requires c1.databaseName == c2.databaseName && c1.schemaName == c2.schemaName
    requires !c1.onFuture ==> c1.sequenceName == c2.sequenceName
    ensures SelectMode(c1) == SelectMode(c2)
  {
  }

  /** An accepted on_future block without a schema is a grant on future
      sequences of the whole database, and Delete revokes that same grant. */
  lemma DatabaseWideFuture(c: Config)
    requires Accepted(c) && c.schemaName == ""
    ensures SelectMode(c) == Future(c.databaseName, "")
    ensures Delete(ToId(c)) == Future(c.databaseName, "")
  {
  }

  /** Read and Delete pick the same builder from any stored identity. */
  lemma ReadDeleteAgree(id: GrantId)
    ensures Read(id).mode == Delete(id)
    ensures Delete(id).Future? <==> id.objectName == ""
  {
  }

  /** The builder recovered from a recorded identity is the one Create chose
      exactly when on_future agrees with an empty sequence name; the second
      and third guards are what make the two agree. */
  lemma ModeRecoveredIff(c: Config)
    ensures Delete(ToId(c)) == SelectMode(c) <==> (c.onFuture <==> c.sequenceName == "")
    ensures Read(ToId(c)).mode == SelectMode(c) <==> (c.onFuture <==> c.sequenceName == "")
  {
  }

  /** Reading back a recorded identity restores the block exactly when
      on_future agrees with an empty sequence name, which every accepted
      block satisfies. */
  lemma ReadRestoresIff(c: Config)
    ensures Read(ToId(c)).state == c <==> (c.onFuture <==> c.sequenceName == "")
    ensures Accepted(c) ==> Read(ToId(c)).state == c
  {
  }

  /** After a successful Create, Read and Delete treat the ID as the same
      kind of grant on the same objects, and Read restores the block. This
      gathers facts from the contracts of Create and Delete in one place. */
  lemma CreateReadDeleteAgree(c: Config, granted: Outcome<string>)
    requires Create(c, granted).Ok?
    ensures Read(Create(c, granted).value.id).mode == Create(c, granted).value.issued
    ensures Delete(Create(c, granted).value.id) == Create(c, granted).value.issued
    ensures Read(Create(c, granted).value.id).state == c
  {
  }

  /** Create records every field of the block unaltered. This restates the
      contracts of Create and ToId from the caller's side. */
  lemma CreateStoresFields(c: Config, granted: Outcome<string>)
    requires Create(c, granted).Ok?
    ensures Create(c, granted).value.id.resourceName == c.databaseName
    ensures Create(c, granted).value.id.schemaName == c.schemaName
    ensures Create(c, granted).value.id.objectName == c.sequenceName
    ensures Create(c, granted).value.id.privilege == c.privilege
    ensures Create(c, granted).value.id.grantOption == c.withGrantOption
  {
  }

  /** Distinct accepted blocks are recorded under distinct identities. */
  lemma ToIdInjective(c1: Config, c2: Config)
    requires Accepted(c1) && Accepted(c2)
    requires ToId(c1) == ToId(c2)
    ensures c1 == c2
  {
  }

  /** The state Read writes back is a block Create accepts unless the ID
      names a sequence but no schema. CreatedIdReadsBackAccepted shows that
      Create never records such an identity. */
  lemma ReadStateAcceptedIff(id: GrantId)
    ensures Accepted(Read(id).state) <==> (id.objectName != "" ==> id.schemaName != "")
  {
  }

  /** Every identity Create records names a schema whenever it names a
      sequence, so the state Read writes back from it is a block Create
      accepts again, and creating from that state records the same identity. */
  lemma CreatedIdReadsBackAccepted(c: Config, granted: Outcome<string>, again: Outcome<string>)
    requires Create(c, granted).Ok?
    requires again.Pass?
    ensures Create(c, granted).value.id.objectName != "" ==> Create(c, granted).value.id.schemaName != ""
    ensures Accepted(Read(Create(c, granted).value.id).state)
    ensures Create(Read(Create(c, granted).value.id).state, again).Ok?
    ensures Create(Read(Create(c, granted).value.id).state, again).value.id == Create(c, granted).value.id
  {
  }

  /** Creating again from what Read wrote back records the same identity and
      issues the builder Delete would revoke. */
  lemma RecreateFromRead(id: GrantId, granted: Outcome<string>)
    requires id.objectName != "" ==> id.schemaName != ""
    requires granted.Pass?
    ensures Create(Read(id).state, granted).Ok?
    ensures Create(Read(id).state, granted).value.id == id
    ensures Create(Read(id).state, granted).value.issued == Delete(id)
  {
  }
}
