/** RSA SecurID configuration of the reverse proxy (`ibmsecurity/isam/web/rsa_securid_config.py`).

    Each wrapper first reads the configuration (`get`), then decides on one call.
    The read is a parameter, `ConfigRead`; the decision is an `Action`.
 */
module RsaSecurIdConfig {
  import opened Client
  import opened Warnings

  const Uri: string := "/wga/rsa_config"
  const RequiredModules: seq<string> := ["wga"]
  const RequiredModel: string := "Appliance"
  const Available: string := "available"

  const IdempotencyWarning: string :=
    "Idempotency check is only to see if there was a config already uploaded. Force upload to replace existing configuration."
  const NoConfigWarning: string := "Valid configuration not found, test skipped."

  const GetDescription: string := "Retrieve RSA Securid Configuration"
  const UploadDescription: string := "Upload a RSA Securid Config file"
  const TestDescription: string := "Test RSA Configuration with username/passcode"
  const DeleteDescription: string := "Deleting or Clear RSA Securid Configuration"
  const ClearDescription: string := "Clear the node secret file"

  /** The result of `get`: its warnings and `data['server_config']`. */
  datatype ConfigRead = ConfigRead(warnings: seq<string>, serverConfig: string)

  /** `get`, `delete` and `clear` pass the module, version and model requirements. */
  const FullCaps: Caps := Caps(Some(RequiredModules), None, Some(RequiredModel))
  /** `upload` and `test` pass no `requires_model`. */
  const NoModelCaps: Caps := Caps(Some(RequiredModules), None, None)

  const ServerConfigPath: string := Uri + "/server_config"
  const NodeSecretPath: string := Uri + "/node_secret"
  const TestPath: string := Uri + "/test"

  /** The one file spec an upload sends. */
  function ConfigFile(filename: string): FileSpec {
    FileSpec("server_config_file", filename, "application/octet-stream")
  }

  /** `get`: a read of the configuration root. */
  function Get(): (a: Action)
    ensures a.Dispatches() && !a.Mutates()
    ensures a == InvokeGet(GetDescription, Uri, FullCaps)
  {
    InvokeGet(GetDescription, Uri, FullCaps)
  }

  /** `_check`: a configuration is present. */
  predicate Check(read: ConfigRead) {
    read.serverConfig == Available
  }

  /** `upload`: send a config file unless one is already available (or `force`). */
  function Upload(read: ConfigRead, filename: string, checkMode: bool, force: bool): (a: Action)
    ensures DockerMarked(read.warnings) ==> a == Envelope(false, read.warnings)
    ensures a.Dispatches() <==> !DockerMarked(read.warnings) && (force || !Check(read)) && !checkMode
    ensures a.Dispatches() ==>
      a == InvokePostFiles(UploadDescription, ServerConfigPath, [ConfigFile(filename)], map[],
                           NoModelCaps, [IdempotencyWarning])
    ensures !DockerMarked(read.warnings) && (force || !Check(read)) && checkMode ==>
      a == Envelope(true, [IdempotencyWarning])
    ensures !force && Check(read) ==> a == Envelope(false, read.warnings)
  {
    if DockerMarked(read.warnings) then
      Envelope(false, read.warnings)
    else
      var warnings := [IdempotencyWarning];
      if force || read.serverConfig != Available then
        if checkMode then Envelope(true, warnings)
        else InvokePostFiles(UploadDescription, ServerConfigPath, [ConfigFile(filename)], map[],
                             NoModelCaps, warnings)
      else
        Envelope(false, read.warnings)
  }

  /** `test`: post the credentials to the test endpoint when a configuration is
      available. `check_mode` and `force` are accepted and never consulted. */
  function Test(read: ConfigRead, username: string, passcode: string, checkMode: bool, force: bool): (a: Action)
    ensures !a.Mutates()
    ensures a.Envelope? ==> !a.changed
    ensures DockerMarked(read.warnings) ==> a == Envelope(false, read.warnings)
    ensures !DockerMarked(read.warnings) && !Check(read) ==> a == Envelope(false, [NoConfigWarning])
    ensures a.Dispatches() <==> !DockerMarked(read.warnings) && Check(read)
    ensures a.Dispatches() ==>
      a == InvokePost(TestDescription, TestPath, map["username" := username, "passcode" := passcode],
                      NoModelCaps, true)
  {
    if DockerMarked(read.warnings) then
      Envelope(false, read.warnings)
    else if read.serverConfig != Available then
      Envelope(false, [NoConfigWarning])
    else
      InvokePost(TestDescription, TestPath, map["username" := username, "passcode" := passcode],
                 NoModelCaps, true)
  }

  /** What `test` makes of the test post's return object: a reported change is
      cleared in place, everything else is handed back as it came. */
  function TestReply(reply: ReturnObject): (r: ReturnObject)
    ensures !r.changed
    ensures r.warnings == reply.warnings && r.data == reply.data
  {
    if reply.changed then reply.(changed := false) else reply
  }

  /** `delete`: remove the server configuration when one is available (or `force`). */
  function Delete(read: ConfigRead, checkMode: bool, force: bool): (a: Action)
    ensures DockerMarked(read.warnings) ==> a == Envelope(false, read.warnings)
    ensures a.Dispatches() <==> !DockerMarked(read.warnings) && (force || Check(read)) && !checkMode
    ensures a.Dispatches() ==> a == InvokeDelete(DeleteDescription, ServerConfigPath, FullCaps)
    ensures !a.Dispatches() ==>
      a == Envelope(!DockerMarked(read.warnings) && (force || Check(read)), read.warnings)
  {
    if DockerMarked(read.warnings) then
      Envelope(false, read.warnings)
    else if force || read.serverConfig == Available then
      if checkMode then Envelope(true, read.warnings)
      else InvokeDelete(DeleteDescription, ServerConfigPath, FullCaps)
    else
      Envelope(false, read.warnings)
  }

  /** `clear`: remove the node secret under the same guard as `delete`. In the
      Docker branch the warnings are handed to `create_return_object` positionally. */
  function Clear(read: ConfigRead, checkMode: bool, force: bool): (a: Action)
    ensures DockerMarked(read.warnings) ==> a == EnvelopePositional(read.warnings)
    ensures a.Dispatches() <==> !DockerMarked(read.warnings) && (force || Check(read)) && !checkMode
    ensures a.Dispatches() ==> a == InvokeDelete(ClearDescription, NodeSecretPath, FullCaps)
    ensures !DockerMarked(read.warnings) && !a.Dispatches() ==>
      a == Envelope(force || Check(read), read.warnings)
  {
    var warnings := read.warnings;
    if DockerMarked(warnings) then
      EnvelopePositional(warnings)
    else if force || read.serverConfig == Available then
      if checkMode then Envelope(true, read.warnings)
      else InvokeDelete(ClearDescription, NodeSecretPath, FullCaps)
    else
      Envelope(false, read.warnings)
  }

  // ---------------------------------------------------------------------------
  // Properties relating the operations

  /** The Docker short-circuit comes before `force` and `check_mode`: under it no
      operation dispatches, whatever the flags. */
  lemma DockerShortCircuitsEverything(read: ConfigRead, filename: string, username: string,
                                      passcode: string, checkMode: bool, force: bool)
    requires DockerMarked(read.warnings)
    ensures Upload(read, filename, checkMode, force) == Envelope(false, read.warnings)
    ensures Test(read, username, passcode, checkMode, force) == Envelope(false, read.warnings)
    ensures Delete(read, checkMode, force) == Envelope(false, read.warnings)
    ensures Clear(read, checkMode, force) == EnvelopePositional(read.warnings)
  {
  }

  /** `clear` differs from `delete` only in its target and description, and in how
      its Docker branch passes the warnings. */
  lemma ClearMirrorsDelete(read: ConfigRead, checkMode: bool, force: bool)
    ensures DockerMarked(read.warnings) ==>
      Delete(read, checkMode, force) == Envelope(false, read.warnings) &&
      Clear(read, checkMode, force) == EnvelopePositional(read.warnings)
    ensures !DockerMarked(read.warnings) ==>
      Clear(read, checkMode, force) ==
        if Delete(read, checkMode, force).Dispatches()
        then InvokeDelete(ClearDescription, NodeSecretPath, FullCaps)
        else Delete(read, checkMode, force)
  {
  }

  /** Check mode never sends a mutating request, from any operation; `test` still
      sends its (non-mutating) post. */
  lemma CheckModeNeverMutates(read: ConfigRead, filename: string, username: string,
                              passcode: string, force: bool)
    ensures !Upload(read, filename, true, force).Dispatches()
    ensures !Delete(read, true, force).Dispatches()
    ensures !Clear(read, true, force).Dispatches()
    ensures Test(read, username, passcode, true, force).Dispatches() <==>
            !DockerMarked(read.warnings) && Check(read)
  {
  }

  /** `test` ignores both flags: it posts in check mode too. */
  lemma TestIgnoresFlags(read: ConfigRead, username: string, passcode: string,
                         checkMode1: bool, force1: bool, checkMode2: bool, force2: bool)
    ensures Test(read, username, passcode, checkMode1, force1) ==
            Test(read, username, passcode, checkMode2, force2)
  {
  }

  /** Without `force` the inline guards are `_check`: `delete`, `clear` and `test`
      act on an available configuration and `upload` on a missing one, so exactly
      one of `upload` and `delete` dispatches for any state. */
  lemma GuardsFollowCheck(read: ConfigRead, filename: string, username: string, passcode: string)
    requires !DockerMarked(read.warnings)
    ensures Delete(read, false, false).Dispatches() <==> Check(read)
    ensures Clear(read, false, false).Dispatches() <==> Check(read)
    ensures Test(read, username, passcode, false, false).Dispatches() <==> Check(read)
    ensures Upload(read, filename, false, false).Dispatches() <==> !Check(read)
    ensures Upload(read, filename, false, false).Dispatches() != Delete(read, false, false).Dispatches()
  {
  }

  /** `force` makes every mutating operation act, whatever the configuration state. */
  lemma ForceAlwaysActs(read: ConfigRead, filename: string)
    requires !DockerMarked(read.warnings)
    ensures Upload(read, filename, false, true).Mutates()
    ensures Delete(read, false, true).Mutates()
    ensures Clear(read, false, true).Mutates()
    ensures Upload(read, filename, true, true) == Envelope(true, [IdempotencyWarning])
    ensures Delete(read, true, true) == Envelope(true, read.warnings)
    ensures Clear(read, true, true) == Envelope(true, read.warnings)
  {
  }

  /** `delete` and `clear` target different resources, both under the module's URI. */
  lemma TargetsAreDistinct()
    ensures ServerConfigPath != NodeSecretPath && ServerConfigPath != TestPath && NodeSecretPath != TestPath
    ensures ServerConfigPath[..|Uri|] == Uri && NodeSecretPath[..|Uri|] == Uri && TestPath[..|Uri|] == Uri
  {
    assert ServerConfigPath[|Uri| + 1] == 's';
    assert NodeSecretPath[|Uri| + 1] == 'n';
    assert TestPath[|Uri| + 1] == 't';
  }
}
