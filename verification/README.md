# Sequence grant resource: decision logic

This project models the core of the `snowflake_sequence_grant` resource of a
Terraform provider for the Snowflake data warehouse. The resource grants a
privilege on one named sequence, or on every future sequence of a schema or of
a whole database. The model covers three things:

- the guard clauses Create applies to a configuration block, in their order;
- the builder each of Create, Read and Delete hands to the generic grant
  helpers: a *future* grant on (database, schema) or a *specific* grant on
  (database, schema, sequence);
- the identity (`GrantId`) Create records, and how Read and Delete recover the
  grant kind and the block's fields from it.

Modules:

- `Wrappers` (`wrappers.dfy`): `Option`, `Outcome`, `Result`.
- `GrantModel` (`grant_model.dfy`): `Config`, the block with defaults applied,
  and `RawConfig`, the block as written. Also `GrantId`, the privilege set with
  its default `USAGE`, and `Mode`, the builder choice.
- `SequenceGrant` (`sequence_grant.dfy`): the guards as an ordered list
  `CreateChecks` checked by `FirstFailure`, `Validate`, `SelectMode`, `ToId`,
  `Create`, `Read` and `Delete`.
- `SequenceGrantProperties` (`sequence_grant_properties.dfy`): lemmas that
  relate the three operations.

The statement builders and the generic create/read/delete helpers issue SQL
against the warehouse. They are represented only by the `Mode` value passed to
them. The outcome of the remote grant statement is a parameter of `Create`.

## Model

| member | source | states |
|---|---|---|
| SequenceGrant.FirstFailure | pkg/resources/sequence_grant.go:98-107 | Guards are run in order. The result is the first guard the block trips, every earlier guard passes, and the result is absent exactly when no guard trips. |
| SequenceGrant.Validate | pkg/resources/sequence_grant.go:98-107 | A block passes exactly when on_future holds iff the sequence name is empty and a missing schema implies on_future. Each error is characterised exactly. The schema error wins when both names are missing. The sequence-name error needs a schema. The "must be empty" error fires exactly for a sequence name with on_future. |
| GrantModel.Resolve | pkg/resources/sequence_grant.go:16-96 | Unset fields take the declared defaults: "" for the names, "USAGE", and false for both flags. The database and every set field keep their value, whatever else is unset. The resolved privilege is OWNERSHIP or USAGE exactly when `PrivilegeAllowed` (an exact-name version of the declared check) accepts the block. |
| SequenceGrant.SelectMode | pkg/resources/sequence_grant.go:109-114 | Create's builder is a future grant exactly when on_future holds. It is on the block's database and schema, and a specific grant names the block's sequence. |
| SequenceGrant.ToId | pkg/resources/sequence_grant.go:121-127 | The identity recorded for a block carries its database, schema, sequence, privilege and grant option unaltered. |
| SequenceGrant.Delete | pkg/resources/sequence_grant.go:187-206 | Delete revokes a future grant exactly when no object name is stored. The grant is on the stored database and schema, and a specific grant names the stored object. |
| SequenceGrant.Read | pkg/resources/sequence_grant.go:138-185 | The fields Read writes back map to the same identity. on_future is recovered as "no sequence name stored". The builder is a future grant exactly when that flag is set, and it is the builder Create would choose for the written-back block. |
| SequenceGrant.Create | pkg/resources/sequence_grant.go:82-135 | A guard failure is reported as that guard, and Create succeeds exactly for an accepted block whose grant went through. The issued builder is a future grant iff no sequence is named. The recorded ID is the block's identity, the issued builder is Create's choice, and the Read that ends Create restores the block and picks the issued builder. |
| SequenceGrantProperties.MessagesDistinct | pkg/resources/sequence_grant.go:98-107 | The three guard errors have pairwise distinct texts, so the guard in Create's `Rejected` error identifies the text. |
| SequenceGrantProperties.DefaultFlagNeedsBothNames | pkg/resources/sequence_grant.go:50-104 | With on_future unset, a block is accepted exactly when it names a non-empty schema and a non-empty sequence. |
| SequenceGrantProperties.SelectModeDependsOnlyOnTarget | pkg/resources/sequence_grant.go:109-114 | Blocks that agree on flag, database, schema and (for a specific grant) sequence get the same builder. Privilege and grant option play no part. |
| SequenceGrantProperties.DatabaseWideFuture | pkg/resources/sequence_grant.go:50-57 | An accepted block without a schema is a future grant on the whole database, and Delete revokes that same grant. |
| SequenceGrantProperties.ReadDeleteAgree | pkg/resources/sequence_grant.go:156-204 | Read and Delete choose the same builder from every identity, and it is a future grant exactly when no object name is stored. |
| SequenceGrantProperties.ModeRecoveredIff | pkg/resources/sequence_grant.go:197-204 | The builder Delete and Read recover from a recorded identity equals Create's choice iff on_future agrees with an empty sequence name. |
| SequenceGrantProperties.ReadRestoresIff | pkg/resources/sequence_grant.go:143-175 | Reading a recorded identity restores the block iff on_future agrees with an empty sequence name, which every accepted block satisfies. |
| SequenceGrantProperties.CreateReadDeleteAgree | pkg/resources/sequence_grant.go:121-134 | After a successful Create, Read and Delete use the builder Create issued, and Read restores the block including on_future. |
| SequenceGrantProperties.CreateStoresFields | pkg/resources/sequence_grant.go:121-127 | The recorded identity carries database, schema, sequence, privilege and grant option unaltered. |
| SequenceGrantProperties.ToIdInjective | pkg/resources/sequence_grant.go:121-127 | Two accepted blocks with the same identity are the same block. |
| SequenceGrantProperties.ReadStateAcceptedIff | pkg/resources/sequence_grant.go:156-164 | The state Read writes back is one Create accepts unless the identity names a sequence but no schema. |
| SequenceGrantProperties.CreatedIdReadsBackAccepted | pkg/resources/sequence_grant.go:98-134 | An identity Create records names a schema whenever it names a sequence. Read's state from it is a block Create accepts, and creating from that state again records the same identity. |
| SequenceGrantProperties.RecreateFromRead | pkg/resources/sequence_grant.go:143-172 | Creating again from Read's written-back state records the same identity and issues the builder Delete revokes. |

## Left out

- ID string encoding (`grantID.String`, `grantIDFromString`): not part of this model. `GrantId` is a plain record that `Create` hands straight to `Read`. The source encodes it, stores it as the resource ID and decodes it again. Every "Read restores the block" statement therefore assumes that decoding an encoded ID gives the ID back. The parse failure in Read and Delete is not modelled.
- SequenceGrant.Create: the failure of `grant.String()` is not modelled. In the source, Create then returns an error after the grant has been issued and sets no ID. Nor are failures of the Read that ends Create (ID parsing, state writes, the remote read), which all come from left-out code. So `Create` succeeding exactly for an accepted block whose grant went through assumes that encoding succeeds and that the closing Read does not fail.
- Generic helpers (`createGenericGrant`, `readGenericGrant`, `deleteGenericGrant`) and the statement builders: their source is not part of this model. They issue remote SQL. Each is represented by the `Mode` it receives, and the grant's remote outcome is a parameter of `Create`.
- `roles` field: only the generic helpers read or write it, so `Config` does not carry it.
- `ConflictsWith` between `on_future` and `sequence_name`: the SDK refuses a block that writes both fields, whatever their values, before Create runs. The model keeps only Create's guards, which look at values. So a block that writes `on_future = false` next to a sequence name is accepted here, while the SDK refuses it.
- Other Terraform SDK machinery: failures of `data.Set`, `ForceNew`, the importer, and the required-ness of `database_name`.
- GrantModel.Resolve: the privilege predicate `PrivilegeAllowed` compares names exactly. The declared check ignores case, so `PrivilegeAllowed` refuses a block naming `usage` that the source accepts. `Create` itself never consults the privilege.
