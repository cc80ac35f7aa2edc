/**
 * Path resolution in SFTPToGCSOperator.execute: how source_path and the
 * normalised destination path become the ordered transfers.
 */
module Planning {
  import opened Wrappers
  import opened Names
  import opened TextOps

  /** The one wildcard marker that source_path may contain. */
  const Wildcard: char := '*'

  /** One file to move: its SFTP path and the object key it is written to. */
  datatype Transfer = Transfer(source: string, objectName: string)

  datatype Error =
    | TooManyWildcards(count: nat, path: string) // the exception naming the count and the path
    | NoObjectName(path: string)                 // rsplit("/", 1)[1] on a path without "/"
    | SourceNotFound(path: string)               // a hook read of a path missing on the server
    | InvalidTransferMethod(streamMethod: string)      // an unrecognised stream_method

  /** What execute does with source_path before it touches the stores. */
  datatype Resolution =
    | Rejected(error: Error)
    | Expand(basePath: string, prefix: string, delimiter: string)
    | Single(transfer: Transfer)

  /**
   * Two or more wildcards are rejected with their count; exactly one splits
   * the path around it and lists the directory of the prefix; none gives a
   * single transfer whose object is the destination path, or when that is
   * empty the text after the last "/" of the source (an error without "/").
   */
  function Resolve(sourcePath: string, destinationPath: string): (r: Resolution)
    ensures CountChar(sourcePath, Wildcard) > 1 <==>
      r == Rejected(TooManyWildcards(CountChar(sourcePath, Wildcard), sourcePath))
    ensures CountChar(sourcePath, Wildcard) == 1 <==> r.Expand?
    ensures r.Expand? ==>
      sourcePath == r.prefix + [Wildcard] + r.delimiter &&
      Wildcard !in r.prefix && Wildcard !in r.delimiter &&
      r.basePath == Dirname(r.prefix)
    ensures Wildcard !in sourcePath && destinationPath != "" ==>
      r == Single(Transfer(sourcePath, destinationPath))
    ensures Wildcard !in sourcePath && destinationPath == "" && '/' in sourcePath ==>
      r.Single? && r.transfer.source == sourcePath && '/' !in r.transfer.objectName &&
      |r.transfer.objectName| < |sourcePath| &&
      sourcePath == sourcePath[..|sourcePath| - |r.transfer.objectName| - 1] + "/" + r.transfer.objectName
    ensures Wildcard !in sourcePath && destinationPath == "" && '/' !in sourcePath ==>
      r == Rejected(NoObjectName(sourcePath))
  {
    if Wildcard in sourcePath then
      var n := CountChar(sourcePath, Wildcard);
      if n > 1 then Rejected(TooManyWildcards(n, sourcePath))
      else
        var parts := SplitAtFirst(sourcePath, Wildcard);
        Expand(Dirname(parts.0), parts.0, parts.1)
    else if destinationPath != "" then
      Single(Transfer(sourcePath, destinationPath))
    else
      match AfterLastSlash(sourcePath)
      case None => Rejected(NoObjectName(sourcePath))
      case Some(name) => Single(Transfer(sourcePath, name))
  }

  /**
   * The transfers of the wildcard case: one per listed file, in listing
   * order, each written to the file's path with the first occurrence of
   * basePath replaced by the destination path.
   */
  function WildcardTransfers(files: seq<string>, basePath: string, destinationPath: string): (ts: seq<Transfer>)
    ensures |ts| == |files|
    ensures forall k :: 0 <= k < |files| ==> ts[k].source == files[k]
    ensures forall k :: 0 <= k < |files| ==> ts[k].objectName == ReplaceFirst(files[k], basePath, destinationPath)
  {
    seq(|files|, k requires 0 <= k < |files| => Transfer(files[k], ReplaceFirst(files[k], basePath, destinationPath)))
  }

  /** Planning a longer listing extends the plan of its prefix. */
  lemma WildcardTransfersPrefix(files: seq<string>, n: nat, basePath: string, destinationPath: string)
    requires n <= |files|
    ensures WildcardTransfers(files, basePath, destinationPath)[..n] ==
      WildcardTransfers(files[..n], basePath, destinationPath)
  {
  }

  /**
   * A listed file that lies under basePath keeps everything after basePath;
   * only its directory is swapped for the destination path.
   */
  lemma WildcardObjectKeys(files: seq<string>, basePath: string, destinationPath: string)
    ensures forall k :: 0 <= k < |files| && StartsWith(files[k], basePath) ==>
      WildcardTransfers(files, basePath, destinationPath)[k].objectName == destinationPath + files[k][|basePath|..]
  {
    forall k | 0 <= k < |files| && StartsWith(files[k], basePath)
      ensures WildcardTransfers(files, basePath, destinationPath)[k].objectName == destinationPath + files[k][|basePath|..]
    {
      ReplaceFirstOfPrefix(files[k], basePath, destinationPath);
    }
  }

  /**
   * The source path "/home/" + "*" + ".csv" is split into the prefix
   * "/home/" and the delimiter ".csv", and "/home" is listed.
   */
  lemma WildcardResolveExample()
    ensures Resolve("/home/*.csv", "archive") == Expand("/home", "/home/", ".csv")
  {
    CountAndSplitExample();
    DirnameExamples();
  }

  /** A single listed file base + rest goes to dest + rest. */
  lemma WildcardTransfersOfOne(basePath: string, rest: string, destinationPath: string)
    ensures WildcardTransfers([basePath + rest], basePath, destinationPath) ==
      [Transfer(basePath + rest, destinationPath + rest)]
  {
    var file := basePath + rest;
    assert file[..|basePath|] == basePath;
    assert file[|basePath|..] == rest;
    ReplaceFirstOfPrefix(file, basePath, destinationPath);
    var ts := WildcardTransfers([file], basePath, destinationPath);
    assert ts == [ts[0]];
  }

  /** With destination "archive", the listed "/home/data.csv" goes to "archive/data.csv". */
  lemma WildcardTransfersExample()
    ensures WildcardTransfers(["/home/data.csv"], "/home", "archive") ==
      [Transfer("/home/data.csv", "archive/data.csv")]
  {
    WildcardTransfersOfOne("/home", "/data.csv", "archive");
    assert "/home" + "/data.csv" == "/home/data.csv";
    assert "archive" + "/data.csv" == "archive/data.csv";
  }

  /**
   * With an empty destination path the wildcard case keeps the slash that
   * followed the base path: "/home/data.csv" goes to "/data.csv".
   */
  lemma EmptyDestinationKeepsLeadingSlash()
    ensures WildcardTransfers(["/home/data.csv"], "/home", "") == [Transfer("/home/data.csv", "/data.csv")]
  {
    WildcardTransfersOfOne("/home", "/data.csv", "");
    assert "/home" + "/data.csv" == "/home/data.csv";
    assert "" + "/data.csv" == "/data.csv";
  }

  /** Without a wildcard or destination path, "/home/data.csv" is written to "data.csv". */
  lemma SingleFileExample()
    ensures Resolve("/home/data.csv", "") == Single(Transfer("/home/data.csv", "data.csv"))
  {
    assert Wildcard !in "/home/data.csv";
    AfterLastSlashUnique("/home/data.csv", "/home", "data.csv");
  }

  /** Without a wildcard or destination path, a source without "/" has no object name. */
  lemma NoObjectNameExample()
    ensures Resolve("data.csv", "") == Rejected(NoObjectName("data.csv"))
  {
    assert Wildcard !in "data.csv" && '/' !in "data.csv";
  }
}
