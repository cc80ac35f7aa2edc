/**
 * SFTPToGCSOperator itself: an object whose execute rewrites its own
 * destination path and bucket name and then drives the two hooks. The
 * server's files, the bucket's objects and the trace of hook calls are
 * fields that the methods update step by step; each method is proved to
 * leave exactly the state that the matching function of module Protocol
 * describes, so every lemma proved there holds of these methods.
 */
module Operator {
  import opened Wrappers
  import opened Names
  import opened TextOps
  import opened Planning
  import opened Protocol

  class SftpToGcsOperator {
    const sourcePath: string
    var destinationPath: Option<string>
    var destinationBucket: string
    const mimeType: string
    const gzip: bool
    const moveObject: bool
    const useStream: bool
    const streamMethod: string

    /** The files of the SFTP server, the objects of the bucket, and the hook calls so far. */
    var files: map<string, seq<byte>>
    var objects: map<string, seq<byte>>
    var trace: seq<Event>

    /**
     * The settings are stored as given, with the operator's defaults for the
     * optional ones; nothing is normalised before execute. files and objects
     * are the contents of the server and the bucket when the run starts.
     */
    constructor (files: map<string, seq<byte>>, objects: map<string, seq<byte>>,
                 sourcePath: string, destinationBucket: string, destinationPath: Option<string> := None,
                 mimeType: string := "application/octet-stream", gzip: bool := false,
                 moveObject: bool := false, useStream: bool := false,
                 streamMethod: string := UploadFromFileMethod)
      ensures this.sourcePath == sourcePath && this.destinationBucket == destinationBucket
      ensures this.destinationPath == destinationPath
      ensures this.mimeType == mimeType && this.gzip == gzip && this.moveObject == moveObject
      ensures this.useStream == useStream && this.streamMethod == streamMethod
      ensures this.files == files && this.objects == objects && this.trace == []
    {
      this.sourcePath := sourcePath;
      this.destinationBucket := destinationBucket;
      this.destinationPath := destinationPath;
      this.mimeType := mimeType;
      this.gzip := gzip;
      this.moveObject := moveObject;
      this.useStream := useStream;
      this.streamMethod := streamMethod;
      this.files := files;
      this.objects := objects;
      this.trace := [];
    }

    function State(): Stores
      reads this
    {
      Stores(files, objects, trace)
    }

    function Settings(): Config
      reads this
    {
      Config(destinationBucket, mimeType, gzip, moveObject, useStream, streamMethod)
    }

    method Record(e: Event)
      modifies this`trace
      ensures trace == old(trace) + [e]
    {
      trace := trace + [e];
    }

    /** Under move_object, delete the source file on the server. */
    method DeleteSourceIfMoving(source: string)
      modifies this`files, this`trace
      ensures State() == MoveSource(Settings(), old(State()), source)
    {
      if moveObject {
        Record(DeleteFile(source));
        files := files - {source};
      }
    }

    /** _copy_single_object. */
    method CopySingleObject(source: string, objectName: string) returns (outcome: Outcome)
      modifies this`files, this`objects, this`trace
      ensures Run(State(), outcome) == CopySingle(Settings(), old(State()), source, objectName)
    {
      Record(RetrieveFile(source));
      if source !in files {
        return Raised(SourceNotFound(source));
      }
      Record(Upload(destinationBucket, objectName, mimeType, gzip));
      objects := objects[objectName := files[source]];
      DeleteSourceIfMoving(source);
      outcome := Completed;
    }

    /** The end of _stream_single_object: commit the temporary object if it is there, then move. */
    method FinaliseStream(source: string, objectName: string) returns (outcome: Outcome)
      modifies this`files, this`objects, this`trace
      ensures Run(State(), outcome) == Finalise(Settings(), old(State()), source, objectName)
    {
      var tmp := objectName + TempSuffix;
      if tmp in objects {
        Record(CopyBlob(destinationBucket, tmp, objectName));
        objects := objects[objectName := objects[tmp]];
        Record(DeleteBlob(destinationBucket, tmp));
        objects := objects - {tmp};
      } else {
        Record(UploadFailed(objectName));
      }
      DeleteSourceIfMoving(source);
      outcome := Completed;
    }

    /**
     * _stream_single_object; tempVisible says whether the temporary object
     * exists when it is looked for after an upload_from_file upload.
     */
    method StreamSingleObject(source: string, objectName: string, tempVisible: bool) returns (outcome: Outcome)
      modifies this`files, this`objects, this`trace
      ensures Run(State(), outcome) == StreamSingle(Settings(), old(State()), source, objectName, tempVisible)
    {
      var tmp := objectName + TempSuffix;
      if tmp in objects {
        Record(DeleteBlob(destinationBucket, tmp));
        objects := objects - {tmp};
      }
      if streamMethod == GetFoMethod {
        Record(GetFo(source, destinationBucket, objectName));
        if source !in files {
          return Raised(SourceNotFound(source));
        }
        objects := objects[objectName := files[source]];
      } else if streamMethod == UploadFromFileMethod {
        Record(OpenSource(source));
        if source !in files {
          return Raised(SourceNotFound(source));
        }
        Record(UploadFromFile(destinationBucket, tmp));
        if tempVisible {
          objects := objects[tmp := files[source]];
        }
      } else {
        return Raised(InvalidTransferMethod(streamMethod));
      }
      outcome := FinaliseStream(source, objectName);
    }

    /** The strategy that use_stream selects, applied to one file. */
    method TransferSingleObject(source: string, objectName: string, tempVisible: string -> bool)
      returns (outcome: Outcome)
      modifies this`files, this`objects, this`trace
      ensures Run(State(), outcome) == TransferOne(Settings(), old(State()), Transfer(source, objectName), tempVisible)
    {
      if useStream {
        outcome := StreamSingleObject(source, objectName, tempVisible(TempObject(objectName)));
      } else {
        outcome := CopySingleObject(source, objectName);
      }
    }

    /**
     * The wildcard branch of execute: list the base path, then transfer each
     * listed file to its path with the base path replaced by dest.
     */
    method TransferListed(basePath: string, prefix: string, delimiter: string, dest: string,
                          listing: seq<string>, tempVisible: string -> bool) returns (outcome: Outcome)
      modifies this`files, this`objects, this`trace
      ensures Run(State(), outcome) ==
        TransferAll(Settings(), Protocol.Emit(old(State()), ListTree(basePath, prefix, delimiter)),
                    WildcardTransfers(listing, basePath, dest), tempVisible)
    {
      Record(ListTree(basePath, prefix, delimiter));
      ghost var start := State();
      var i := 0;
      while i < |listing|
        invariant 0 <= i <= |listing|
        invariant start == Protocol.Emit(old(State()), ListTree(basePath, prefix, delimiter))
        invariant Run(State(), Completed) ==
          TransferAll(Settings(), start, WildcardTransfers(listing[..i], basePath, dest), tempVisible)
      {
        var file := listing[i];
        var objectName := ReplaceFirst(file, basePath, dest);
        var o := TransferSingleObject(file, objectName, tempVisible);
        OneMoreTransfer(listing, i, basePath, dest);
        if o.Raised? {
          StopsAtError(Settings(), start, listing, i, basePath, dest, tempVisible);
          return o;
        }
        i := i + 1;
      }
      assert listing[..i] == listing;
      outcome := Completed;
    }

    /**
     * execute: normalise the destination path and the bucket name in place,
     * then transfer the one file or every listed file of the wildcard's
     * directory (listing stands for what get_tree_map returns), stopping at
     * the first error.
     */
    method Execute(listing: seq<string>, tempVisible: string -> bool) returns (outcome: Outcome)
      modifies this
      ensures destinationPath == Some(SetDestinationPath(old(destinationPath)))
      ensures destinationBucket == SetBucketName(old(destinationBucket))
      ensures Run(State(), outcome) ==
        Protocol.Execute(old(Settings()), sourcePath, old(destinationPath), old(State()), listing, tempVisible)
    {
      ghost var settings, state, path := Settings(), State(), destinationPath;
      var dest := SetDestinationPath(destinationPath);
      destinationPath := Some(dest);
      destinationBucket := SetBucketName(destinationBucket);
      assert Settings() == settings.(bucket := SetBucketName(settings.bucket));
      if Wildcard in sourcePath {
        var total := CountChar(sourcePath, Wildcard);
        if total > 1 {
          ExecuteRejectsWildcards(settings, sourcePath, path, state, listing, tempVisible);
          return Raised(TooManyWildcards(total, sourcePath));
        }
        var parts := SplitAtFirst(sourcePath, Wildcard);
        var prefix, delimiter := parts.0, parts.1;
        var basePath := Dirname(prefix);
        ExecuteWildcard(settings, sourcePath, path, state, listing, tempVisible);
        outcome := TransferListed(basePath, prefix, delimiter, dest, listing, tempVisible);
      } else {
        var name: string;
        if dest != "" {
          name := dest;
        } else {
          match AfterLastSlash(sourcePath)
          case None =>
            return Raised(NoObjectName(sourcePath));
          case Some(n) =>
            name := n;
        }
        ExecuteSingle(settings, sourcePath, path, state, listing, tempVisible);
        outcome := TransferSingleObject(sourcePath, name, tempVisible);
      }
    }
  }

  /** An operator built with only the required settings copies, without move, to the named path. */
  method DefaultOperator(files: map<string, seq<byte>>, sourcePath: string, bucket: string)
    returns (op: SftpToGcsOperator)
    ensures op.sourcePath == sourcePath && op.destinationBucket == bucket && op.destinationPath == None
    ensures op.mimeType == "application/octet-stream" && !op.gzip && !op.moveObject
    ensures !op.useStream && op.streamMethod == UploadFromFileMethod
    ensures op.files == files && op.objects == map[] && op.trace == []
  {
    op := new SftpToGcsOperator(files, map[], sourcePath, bucket);
  }

  /** The plan of one more listed file is the plan so far and that file's transfer. */
  lemma OneMoreTransfer(listing: seq<string>, i: nat, basePath: string, dest: string)
    requires i < |listing|
    ensures var ts := WildcardTransfers(listing[..i + 1], basePath, dest);
      ts != [] && ts[..|ts| - 1] == WildcardTransfers(listing[..i], basePath, dest) &&
      ts[|ts| - 1] == Transfer(listing[i], ReplaceFirst(listing[i], basePath, dest))
  {
    WildcardTransfersPrefix(listing[..i + 1], i, basePath, dest);
    assert listing[..i + 1][..i] == listing[..i];
  }

  /** An error on the i-th listed file is the result of the whole loop. */
  lemma StopsAtError(c: Config, s: Stores, listing: seq<string>, i: nat, basePath: string, dest: string,
                     tempVisible: string -> bool)
    requires i < |listing|
    requires TransferAll(c, s, WildcardTransfers(listing[..i + 1], basePath, dest), tempVisible).outcome.Raised?
    ensures TransferAll(c, s, WildcardTransfers(listing, basePath, dest), tempVisible) ==
      TransferAll(c, s, WildcardTransfers(listing[..i + 1], basePath, dest), tempVisible)
  {
    WildcardTransfersPrefix(listing, i + 1, basePath, dest);
    TransferAllStopsAtPrefix(c, s, WildcardTransfers(listing, basePath, dest), i + 1, tempVisible);
  }
}
