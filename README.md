# Idempotent wrappers: RSA SecurID configuration and cluster log files

A model of the decision logic in two modules of the `ibmsecurity` appliance
management library: the RSA SecurID configuration wrappers of the reverse proxy
(`upload`, `test`, `delete`, `clear`, `_check`, `get`) and the cluster manager
log wrappers (`get_all`, `get`, `_check`, `delete`, `export_file`).

Every wrapper talks to an appliance client that is not part of this model. Each
mutating wrapper, and `test`, reads the current state first (`export_file`
excepted; the `get` wrappers are the reads themselves). It then either returns
a result envelope built by the client (`create_return_object`) or dispatches one
request. The model makes each wrapper a pure function. Its inputs are the read
result, the `check_mode` and `force` flags and, for `export_file`, whether the
destination file already exists. Its output is an `Action` value
(`client.dfy`). The action either describes the envelope asked for or names the
request, with its path, body, file specs and capability keywords.

Modules:

- `Client` (`client.dfy`): the `Action` datatype, the capability keywords (`Caps`), the file spec of an upload, and the client's return object.
- `Warnings` (`warnings.dfy`): the "Docker" short-circuit `warnings and 'Docker' in warnings[0]`. Python's substring `in` is a recursive search proved against its definition.
- `RsaSecurIdConfig` (`rsa_securid_config.dfy`): the RSA SecurID wrappers.
- `ClusterLog` (`cluster_log.dfy`): the cluster log wrappers, their paths and the inverse of the log path.

Two behaviours are modelled as the code has them:

- `clear` hands its warnings to `create_return_object` positionally in the Docker branch (`rsa_securid_config.py:119`). Every other wrapper passes `warnings=`. The model records this as `EnvelopePositional(warnings)`. The client is not modelled, so the model does not say which parameter that list binds.
- Log `delete` never looks at the log contents. It acts only under `force`, and `_check` is not used by it.

Other details kept from the code:

- `upload` and `test` pass no `requires_model`. `get`, `delete` and `clear` do.
- `test` ignores `check_mode` and `force`, so it posts in check mode too.
- The check-mode envelope of `upload` and its file post carry the fixed idempotency warning, not the read's warnings. Its no-change envelope carries the read's warnings.

## Model

| member | source | states |
|---|---|---|
| Warnings.ContainsFrom | ibmsecurity/isam/web/rsa_securid_config.py:28 | the search from index i is true exactly when the substring occurs at some index at or after i |
| Warnings.Contains | ibmsecurity/isam/web/rsa_securid_config.py:28 | Python's `'Docker' in w` is true exactly when the marker occurs somewhere in w |
| Warnings.MarkerAnywhereInFirstWarning | ibmsecurity/isam/web/rsa_securid_config.py:28 | a first warning with the marker at any position triggers the short-circuit, whatever follows |
| Warnings.ShortFirstWarningNotMarked | ibmsecurity/isam/web/rsa_securid_config.py:65 | a first warning shorter than the marker never triggers it |
| Warnings.OnlyFirstWarningInspected | ibmsecurity/isam/base/cluster/log.py:38 | the warnings after the first never change the outcome of the check |
| Warnings.LaterMarkerIgnored | ibmsecurity/isam/web/rsa_securid_config.py:90 | an empty list never short-circuits, and a marker in the second warning does not when the first lacks it |
| RsaSecurIdConfig.Get | ibmsecurity/isam/web/rsa_securid_config.py:14-19 | the read is a non-mutating GET, with its fixed description, of the module URI carrying the module, version and model requirements |
| RsaSecurIdConfig.Upload | ibmsecurity/isam/web/rsa_securid_config.py:22-51 | Docker short-circuits with the read's warnings; it dispatches exactly when not Docker, `force` or no config, and not check mode; the dispatch is one file post of `server_config_file` as octet-stream to `/server_config` with the idempotency warning; check mode reports a change with that warning; an available config without `force` gives an unchanged envelope with the read's warnings |
| RsaSecurIdConfig.Test | ibmsecurity/isam/web/rsa_securid_config.py:59-77 | never mutates and never reports a change itself; Docker short-circuits; without a config it returns only the "test skipped" warning; otherwise it posts username and passcode to `/test` with `ignore_error` and no model requirement |
| RsaSecurIdConfig.TestReply | ibmsecurity/isam/web/rsa_securid_config.py:78-81 | the returned object never reports a change and keeps the post's warnings and data |
| RsaSecurIdConfig.Delete | ibmsecurity/isam/web/rsa_securid_config.py:84-102 | Docker short-circuits; it dispatches exactly when not Docker, `force` or config available, and not check mode; the dispatch is a DELETE of `/server_config`; otherwise the envelope reports a change exactly when the guard held, with the read's warnings |
| RsaSecurIdConfig.Clear | ibmsecurity/isam/web/rsa_securid_config.py:105-130 | Docker returns the warnings passed positionally; the same guard as delete, targeting `/node_secret`; check mode reports a change with the read's warnings |
| RsaSecurIdConfig.DockerShortCircuitsEverything | ibmsecurity/isam/web/rsa_securid_config.py:116-119 | under the marker, upload, test, delete and clear dispatch nothing whatever the flags |
| RsaSecurIdConfig.ClearMirrorsDelete | ibmsecurity/isam/web/rsa_securid_config.py:121-130 | outside Docker, clear is delete with the node secret target; under Docker they differ only in how the warnings are passed |
| RsaSecurIdConfig.CheckModeNeverMutates | ibmsecurity/isam/web/rsa_securid_config.py:94-95 | in check mode upload, delete and clear dispatch nothing, while test still posts exactly when the marker is absent and a configuration is available |
| RsaSecurIdConfig.TestIgnoresFlags | ibmsecurity/isam/web/rsa_securid_config.py:59-81 | test's action is the same for every value of `check_mode` and `force` |
| RsaSecurIdConfig.GuardsFollowCheck | ibmsecurity/isam/web/rsa_securid_config.py:54-56 | `_check` (config is `available`) is the inline guard of lines 34, 68, 93 and 121: without `force`, delete, clear and test act exactly when it holds and upload exactly when it fails, so exactly one of upload and delete acts |
| RsaSecurIdConfig.ForceAlwaysActs | ibmsecurity/isam/web/rsa_securid_config.py:34-36 | outside Docker, `force` makes upload, delete and clear mutate, or report a change in check mode, whatever the state |
| RsaSecurIdConfig.TargetsAreDistinct | ibmsecurity/isam/web/rsa_securid_config.py:8 | the server config, node secret and test paths differ and all lie under the module URI |
| ClusterLog.GetAll | ibmsecurity/isam/base/cluster/log.py:7-12 | lists the logs with a GET, with its fixed description, of `/isam/cluster/logging/v1`, which is no single log's path |
| ClusterLog.Get | ibmsecurity/isam/base/cluster/log.py:15-20 | a GET, with its fixed description, of `/isam/cluster/logging/{file_id}/v1`, a path that decodes back to the requested file id |
| ClusterLog.GetIgnoresWindow | ibmsecurity/isam/base/cluster/log.py:15-20 | `size`, `start` and `options` have no effect on the request |
| ClusterLog.DeleteIgnoresCheck | ibmsecurity/isam/base/cluster/log.py:23-29 | `_check` (contents non-empty) is never consulted by delete: outside Docker, a log with contents still gets the unchanged envelope with the read's warnings unless `force` is set |
| ClusterLog.Delete | ibmsecurity/isam/base/cluster/log.py:32-49 | Docker short-circuits; it dispatches exactly when not Docker, `force` and not check mode; the dispatch is the "Clear a log file" DELETE of the file's log path; otherwise the envelope reports a change exactly under `force` outside Docker, with the read's warnings |
| ClusterLog.DeleteIgnoresContents | ibmsecurity/isam/base/cluster/log.py:41 | two reads with the same warnings give the same action, whatever the contents |
| ClusterLog.DeleteNeedsForce | ibmsecurity/isam/base/cluster/log.py:41-49 | without `force` delete returns an unchanged envelope with the read's warnings |
| ClusterLog.ExportFile | ibmsecurity/isam/base/cluster/log.py:52-65 | it downloads exactly when `force` or the destination is missing, and not check mode; the download is the "Export a cluster manager log file" fetch of the export path into the given file; otherwise the default empty, unchanged envelope |
| ClusterLog.CheckModeNeverDispatches | ibmsecurity/isam/base/cluster/log.py:58-59 | in check mode neither delete nor export dispatches anything |
| ClusterLog.ExportFetchesTheLogOfGet | ibmsecurity/isam/base/cluster/log.py:62 | the export path is the path `get` reads with `?export` appended |
| ClusterLog.LogPathRoundTrip | ibmsecurity/isam/base/cluster/log.py:20 | the file id is recovered from the log path built from it |
| ClusterLog.LogPathInjective | ibmsecurity/isam/base/cluster/log.py:47 | different file ids give different log paths |
| ClusterLog.ExportPathIsDistinct | ibmsecurity/isam/base/cluster/log.py:62 | the export path is never a plain log path nor the list path |

## Left out

- The appliance client (`invoke_get`, `invoke_post`, `invoke_delete`, `invoke_post_files`, `invoke_get_file`, `create_return_object`): its HTTP transport, sessions and error handling are not part of this model. A call is recorded as an `Action` value.
- What the client returns from a dispatched call, and so claims such as "delete twice reports a change, then none". The appliance state before and after a call is not modelled.
- The capability checks (`requires_model`, `requires_modules`, `requires_version`): enforced by the client. They are recorded as the `Caps` of each action.
- `create_return_object`'s defaults: taken as `changed=False` and `warnings=[]`, since the client is not part of this model.
- `os.path.exists` in `export_file`: file-system I/O, given as the boolean `destinationExists`.
- The module-level `logging` setup: it has no effect on any decision.
- The `KeyError` raised when the read lacks `server_config` or `contents`: the read datatypes always carry the field.
- Flags other than `True`/`False`: the flags are booleans, so `force is True` and `check_mode is False` coincide with truth. A truthy non-boolean such as `1` is not modelled.
- The full result of `test`: the model gives the post to dispatch and, separately, what `test` does to the post's return object.
- Non-string values in the warnings list or in `server_config`: both are strings in the model.
- The `elseif` parameter of `clear`: it is never used, so `Clear` has no such argument.
