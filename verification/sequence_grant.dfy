/** Create, Read and Delete of the sequence-grant resource, reduced to the
    decisions they make: which configurations Create refuses, which builder
    each operation hands to the generic grant helpers, and which fields are
    recorded in and recovered from the resource ID. */
module SequenceGrant {
  import opened Wrappers
  import opened GrantModel

  /** The guard clauses Create runs before issuing a grant. */
  datatype Check =
    | SchemaNameRequired
    | SequenceNameRequired
    | SequenceNameForbidden

  /** True when `c` trips guard `k`. */
  predicate Fails(k: Check, c: Config) {
    match k
    case SchemaNameRequired => c.schemaName == "" && !c.onFuture
    case SequenceNameRequired => c.sequenceName == "" && !c.onFuture
    case SequenceNameForbidden => c.sequenceName != "" && c.onFuture
  }

  /** The error text Create returns for each guard. */
  function Message(k: Check): string {
    match k
    case SchemaNameRequired => "schema_name must be set unless on_future is true."
    case SequenceNameRequired => "sequence_name must be set unless on_future is true."
    case SequenceNameForbidden => "sequence_name must be empty if on_future is true."
  }

  /** The guards in the order Create runs them. */
  const CreateChecks: seq<Check> := [SchemaNameRequired, SequenceNameRequired, SequenceNameForbidden]

  /** The first guard in `checks` that `c` trips, if any. */
  function FirstFailure(checks: seq<Check>, c: Config): (r: Option<Check>)
    ensures r.None? <==> forall i :: 0 <= i < |checks| ==> !Fails(checks[i], c)
    ensures r.Some? ==>
      exists i :: 0 <= i < |checks| && checks[i] == r.value && Fails(checks[i], c)
                  && forall j :: 0 <= j < i ==> !Fails(checks[j], c)
  {
    if |checks| == 0 then None
    else if Fails(checks[0], c) then Some(checks[0])
    else
      var r := FirstFailure(checks[1..], c);
      assert forall i :: 1 <= i < |checks| ==> checks[i] == checks[1..][i - 1];
      r
  }

  /** The combinations Create lets through: on_future exactly when no
      sequence is named, and a schema unless on_future (an on_future grant
      without a schema covers the whole database). */
  predicate Accepted(c: Config) {
    && (c.onFuture <==> c.sequenceName == "")
    && (c.schemaName == "" ==> c.onFuture)
  }

  /** Create's guard clauses. The schema guard runs first, so it is the one
      reported when both names are missing. */
  function Validate(c: Config): (r: Outcome<Check>)
    ensures r.Pass? <==> Accepted(c)
    ensures r == Fail(SchemaNameRequired) <==> c.schemaName == "" && !c.onFuture
    ensures r == Fail(SequenceNameRequired) <==> c.schemaName != "" && c.sequenceName == "" && !c.onFuture
    ensures r == Fail(SequenceNameForbidden) <==> c.sequenceName != "" && c.onFuture
  {
    var first := FirstFailure(CreateChecks, c);
    assert first.None? ==>
      !Fails(CreateChecks[0], c) && !Fails(CreateChecks[1], c) && !Fails(CreateChecks[2], c);
    match first
    case None => Pass
    case Some(k) => Fail(k)
  }

  /** The builder Create hands to the generic grant helper. */
  function SelectMode(c: Config): (m: Mode)
    ensures m.Future? <==> c.onFuture
    ensures m.database == c.databaseName && m.schema == c.schemaName
    ensures m.Specific? ==> m.sequence == c.sequenceName
  {
    Builder(c.onFuture, c.databaseName, c.schemaName, c.sequenceName)
  }

  /** The identity Create records for `c`. */
  function ToId(c: Config): (id: GrantId)
    ensures id.resourceName == c.databaseName
    ensures id.schemaName == c.schemaName
    ensures id.objectName == c.sequenceName
    ensures id.privilege == c.privilege
    ensures id.grantOption == c.withGrantOption
  {
    GrantId(c.databaseName, c.schemaName, c.sequenceName, c.privilege, c.withGrantOption)
  }

  /** The builder Delete derives from a stored identity. */
  function Delete(id: GrantId): (m: Mode)
    ensures m.Future? <==> id.objectName == ""
    ensures m.database == id.resourceName && m.schema == id.schemaName
    ensures m.Specific? ==> m.sequence == id.objectName
  {
    Builder(id.objectName == "", id.resourceName, id.schemaName, id.objectName)
  }

  /** What Read leaves behind: the fields it writes back into the resource
      state, and the builder it hands to the generic read helper (together
      with `state.onFuture` as the future flag). */
  datatype ReadState = ReadState(state: Config, mode: Mode)

  /** Read: every stored field is written back, on_future is recovered from
      whether a sequence name was stored, and the builder follows that flag. */
  function Read(id: GrantId): (r: ReadState)
    ensures ToId(r.state) == id
    ensures r.state.onFuture <==> id.objectName == ""
    ensures r.mode.Future? <==> r.state.onFuture
    ensures r.mode == SelectMode(r.state)
  {
    var future := id.objectName == "";
    var state := Config(id.resourceName, id.schemaName, id.objectName, id.privilege, future, id.grantOption);
    ReadState(state, Builder(future, id.resourceName, id.schemaName, id.objectName))
  }

  /** Why Create can fail: a guard clause, or the remote grant itself. */
  datatype CreateError =
    | Rejected(check: Check)
    | GrantFailed(message: string)

  /** A successful Create: the builder it issued the grant with, the ID it
      recorded, and the state left by the Read it ends with. */
  datatype Created = Created(issued: Mode, id: GrantId, read: ReadState)

  /** Create. `granted` is the outcome of the remote grant statement, which
      this model does not issue. A refusal `Rejected(k)` stands for the error
      whose text is `Message(k)`; the texts are distinct, so the guard
      identifies the error. */
  function Create(c: Config, granted: Outcome<string>): (r: Result<Created, CreateError>)
    ensures Validate(c).Fail? ==> r == Err(Rejected(Validate(c).error))
    ensures r.Err? && r.error.Rejected? ==> !Accepted(c)
    ensures r.Err? && r.error.GrantFailed? ==> Accepted(c) && granted == Fail(r.error.message)
    ensures r.Ok? <==> Accepted(c) && granted.Pass?
    ensures r.Ok? ==> (r.value.issued.Future? <==> c.sequenceName == "")
    ensures r.Ok? ==> r.value.read.state == c
    ensures r.Ok? ==> r.value.read.mode == r.value.issued
    ensures r.Ok? ==> r.value.id == ToId(c) && r.value.issued == SelectMode(c)
    ensures r.Ok? ==> r.value.read == Read(r.value.id)
  {
    match Validate(c)
    case Fail(k) => Err(Rejected(k))
    case Pass =>
      var issued := SelectMode(c);
      match granted
      case Fail(msg) => Err(GrantFailed(msg))
      case Pass =>
        var id := ToId(c);
        Ok(Created(issued, id, Read(id)))
  }
}
