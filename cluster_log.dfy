/** Cluster manager log files (`ibmsecurity/isam/base/cluster/log.py`).

    `delete` reads the log file first; the read is a parameter, `LogRead`.
    `export_file` reads nothing from the appliance and consults the local file
    system instead, which is the parameter `destinationExists`.
 */
module ClusterLog {
  import opened Client
  import opened Warnings

  const RequiredModel: string := "Appliance"
  const LogCaps: Caps := Caps(None, None, Some(RequiredModel))

  const GetAllDescription: string := "Retrieve the cluster manager log file names"
  const GetDescription: string := "Retrieve a log file snippet"
  const DeleteDescription: string := "Clear a log file"
  const ExportDescription: string := "Export a cluster manager log file"

  const ListPath: string := "/isam/cluster/logging/v1"
  const LogPrefix: string := "/isam/cluster/logging/"
  const LogSuffix: string := "/v1"
  const ExportQuery: string := "?export"

  /** The result of `get`: its warnings and `data['contents']`. */
  datatype LogRead = LogRead(warnings: seq<string>, contents: string)

  /** `"/isam/cluster/logging/{0}/v1".format(file_id)`. */
  function LogPath(fileId: string): string {
    LogPrefix + fileId + LogSuffix
  }

  /** The download path of `export_file`. */
  function ExportPath(fileId: string): string {
    LogPath(fileId) + ExportQuery
  }

  /** The file id a log path was built from, if it is one. */
  function FileIdOf(path: string): (r: Option<string>)
    ensures r.Some? ==> |r.value| + |LogPrefix| + |LogSuffix| == |path|
  {
    if |path| >= |LogPrefix| + |LogSuffix|
       && path[..|LogPrefix|] == LogPrefix
       && path[|path| - |LogSuffix|..] == LogSuffix
    then Some(path[|LogPrefix|..|path| - |LogSuffix|])
    else None
  }

  /** `get_all`: list the log file names. */
  function GetAll(): (a: Action)
    ensures a == InvokeGet(GetAllDescription, ListPath, LogCaps)
    ensures FileIdOf(a.path) == None
  {
    InvokeGet(GetAllDescription, ListPath, LogCaps)
  }

  /** `get`: read one log file. The window arguments `size`, `start` and `options`
      are accepted and never sent. */
  function Get(fileId: string, size: int, start: Option<int>, options: Option<string>): (a: Action)
    ensures a == InvokeGet(GetDescription, LogPath(fileId), LogCaps)
    ensures FileIdOf(a.path) == Some(fileId)
  {
    LogPathRoundTrip(fileId);
    InvokeGet(GetDescription, LogPath(fileId), LogCaps)
  }

  /** `_check`: the log file has contents. */
  predicate Check(read: LogRead) {
    read.contents != ""
  }

  /** `delete`: clear a log file. Only `force` makes it act; the contents of the
      read are never looked at. */
  function Delete(read: LogRead, fileId: string, checkMode: bool, force: bool): (a: Action)
    ensures DockerMarked(read.warnings) ==> a == Envelope(false, read.warnings)
    ensures a.Dispatches() <==> !DockerMarked(read.warnings) && force && !checkMode
    ensures a.Dispatches() ==> a == InvokeDelete(DeleteDescription, LogPath(fileId), LogCaps)
    ensures a.Dispatches() ==> FileIdOf(a.path) == Some(fileId)
    ensures !a.Dispatches() ==> a == Envelope(!DockerMarked(read.warnings) && force, read.warnings)
  {
    LogPathRoundTrip(fileId);
    if DockerMarked(read.warnings) then
      Envelope(false, read.warnings)
    else if force then
      if checkMode then Envelope(true, read.warnings)
      else InvokeDelete(DeleteDescription, LogPath(fileId), LogCaps)
    else
      Envelope(false, read.warnings)
  }

  /** `export_file`: download the log unless the destination already exists (or
      `force`), and never in check mode. There is no read and no Docker check. */
  function ExportFile(fileId: string, filename: string, destinationExists: bool,
                      checkMode: bool, force: bool): (a: Action)
    ensures a.Dispatches() <==> (force || !destinationExists) && !checkMode
    ensures a.Dispatches() ==>
      a == InvokeGetFile(ExportDescription, ExportPath(fileId), filename, LogCaps)
    ensures !a.Dispatches() ==> a == Envelope(false, [])
  {
    if (force || !destinationExists) && !checkMode then
      InvokeGetFile(ExportDescription, ExportPath(fileId), filename, LogCaps)
    else
      Envelope(false, [])
  }

  // ---------------------------------------------------------------------------
  // Paths

  /** A log path gives back the file id it was built from. */
  lemma LogPathRoundTrip(fileId: string)
    ensures FileIdOf(LogPath(fileId)) == Some(fileId)
  {
  }

  /** Different file ids never share a path. */
  lemma LogPathInjective(id1: string, id2: string)
    requires LogPath(id1) == LogPath(id2)
    ensures id1 == id2
  {
    LogPathRoundTrip(id1);
    LogPathRoundTrip(id2);
  }

  /** The export path is never the plain path of any log file, nor the list path. */
  lemma ExportPathIsDistinct(id1: string, id2: string)
    ensures ExportPath(id1) != LogPath(id2)
    ensures ExportPath(id1) != ListPath
  {
    var e, p := ExportPath(id1), LogPath(id2);
    assert e[|e| - 1] == 't';
    assert p[|p| - 1] == '1';
  }

  // ---------------------------------------------------------------------------
  // Properties of the decisions

  /** `get` sends the same request whatever window it is asked for. */
  lemma GetIgnoresWindow(fileId: string, size1: int, start1: Option<int>, options1: Option<string>,
                         size2: int, start2: Option<int>, options2: Option<string>)
    ensures Get(fileId, size1, start1, options1) == Get(fileId, size2, start2, options2)
  {
  }

  /** `delete` decides on the warnings alone: two reads with the same warnings give
      the same action, whatever the contents, so `_check` plays no part. */
  lemma DeleteIgnoresContents(read1: LogRead, read2: LogRead, fileId: string, checkMode: bool, force: bool)
    requires read1.warnings == read2.warnings
    ensures Delete(read1, fileId, checkMode, force) == Delete(read2, fileId, checkMode, force)
  {
  }

  /** Without `force`, `delete` never dispatches, even for a log with contents. */
  lemma DeleteNeedsForce(read: LogRead, fileId: string, checkMode: bool)
    ensures Delete(read, fileId, checkMode, false) == Envelope(false, read.warnings)
  {
  }

  /** Unlike the RSA `delete`, a log that `_check` finds non-empty is not cleared
      without `force`. */
  lemma DeleteIgnoresCheck(read: LogRead, fileId: string, checkMode: bool)
    requires !DockerMarked(read.warnings) && Check(read)
    ensures Delete(read, fileId, checkMode, false) == Envelope(false, read.warnings)
  {
  }

  /** Check mode never sends anything from `delete` or `export_file`. */
  lemma CheckModeNeverDispatches(read: LogRead, fileId: string, filename: string,
                                 destinationExists: bool, force: bool)
    ensures !Delete(read, fileId, true, force).Dispatches()
    ensures ExportFile(fileId, filename, destinationExists, true, force) == Envelope(false, [])
  {
  }

  /** The export always fetches the same log file a `get` reads, with the export query added. */
  lemma ExportFetchesTheLogOfGet(fileId: string, filename: string, destinationExists: bool,
                                 checkMode: bool, force: bool)
    requires ExportFile(fileId, filename, destinationExists, checkMode, force).Dispatches()
    ensures ExportFile(fileId, filename, destinationExists, checkMode, force).path ==
            Get(fileId, 100, None, None).path + ExportQuery
  {
  }
}
