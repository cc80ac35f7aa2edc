/**
 * The per-file transfer protocol of SFTPToGCSOperator and the whole of
 * execute, as functions over two abstract stores: the files of the SFTP
 * server and the objects of the destination bucket, each a map from path
 * or key to contents. Every hook call is recorded, in order, in a trace.
 * The imperative methods of module Operator are proved equal to these
 * functions; the lemmas below state what the protocol guarantees.
 */
module Protocol {
  import opened Wrappers
  import opened Names
  import opened TextOps
  import opened Planning

  newtype byte = x: int | 0 <= x < 256

  const GetFoMethod: string := "getfo"
  const UploadFromFileMethod: string := "upload_from_file"
  const TempSuffix: string := ".tmp"

  /** One call into the SFTP or the storage hook (or the one error log line). */
  datatype Event =
    | ListTree(basePath: string, prefix: string, delimiter: string)
    | RetrieveFile(source: string)
    | Upload(bucket: string, objectName: string, mimeType: string, gzip: bool)
    | DeleteFile(source: string)
    | DeleteBlob(bucket: string, objectName: string)
    | GetFo(source: string, bucket: string, objectName: string)
    | OpenSource(source: string)
    | UploadFromFile(bucket: string, objectName: string)
    | CopyBlob(bucket: string, src: string, dst: string)
    | UploadFailed(objectName: string)

  datatype Stores = Stores(files: map<string, seq<byte>>, objects: map<string, seq<byte>>, trace: seq<Event>)

  datatype Outcome = Completed | Raised(error: Error)

  datatype Run = Run(stores: Stores, outcome: Outcome)

  /** The operator's settings that the transfers read. */
  datatype Config = Config(
    bucket: string, mimeType: string, gzip: bool,
    moveObject: bool, useStream: bool, streamMethod: string)

  /** The key of the temporary object that upload_from_file writes first. */
  function TempObject(objectName: string): (t: string)
    ensures |t| == |objectName| + 4 && t != objectName
  {
    objectName + TempSuffix
  }

  function Emit(s: Stores, e: Event): Stores {
    s.(trace := s.trace + [e])
  }

  /** The calls made under move_object once a file has been transferred. */
  function MoveEvents(c: Config, source: string): seq<Event> {
    if c.moveObject then [DeleteFile(source)] else []
  }

  /** The deletion of a stale temporary object left by an earlier attempt. */
  function StaleEvents(c: Config, s: Stores, tmp: string): seq<Event> {
    if tmp in s.objects then [DeleteBlob(c.bucket, tmp)] else []
  }

  /** move_object: delete the source file on the server. */
  function MoveSource(c: Config, s: Stores, source: string): (r: Stores)
    ensures r.objects == s.objects && r.trace == s.trace + MoveEvents(c, source)
    ensures source in r.files <==> source in s.files && !c.moveObject
    ensures forall p :: p != source ==> (p in r.files <==> p in s.files)
    ensures forall p :: p in r.files ==> r.files[p] == s.files[p]
  {
    if c.moveObject then Emit(s, DeleteFile(source)).(files := s.files - {source}) else s
  }

  /**
   * _copy_single_object: retrieve the file into a local temporary file,
   * upload that file to the object, then delete the source under move_object.
   * Retrieving a path the server does not have raises.
   */
  function CopySingle(c: Config, s: Stores, source: string, objectName: string): (r: Run)
    ensures |r.stores.trace| > |s.trace| && r.stores.trace[..|s.trace| + 1] == s.trace + [RetrieveFile(source)]
    ensures r.outcome.Completed? <==> source in s.files
    ensures r.outcome.Completed? ==> objectName in r.stores.objects && r.stores.objects[objectName] == s.files[source]
    ensures r.outcome.Raised? ==>
      r.outcome.error == SourceNotFound(source) && r.stores.files == s.files && r.stores.objects == s.objects
  {
    var s1 := Emit(s, RetrieveFile(source));
    if source !in s.files then
      Run(s1, Raised(SourceNotFound(source)))
    else
      var s2 := Emit(s1, Upload(c.bucket, objectName, c.mimeType, c.gzip));
      Run(MoveSource(c, s2.(objects := s.objects[objectName := s.files[source]]), source), Completed)
  }

  /** Delete the temporary object if it exists. */
  function DropStaleTemp(c: Config, s: Stores, tmp: string): (r: Stores)
    ensures tmp !in r.objects && r.files == s.files && r.trace == s.trace + StaleEvents(c, s, tmp)
    ensures forall k :: k != tmp ==> (k in r.objects <==> k in s.objects)
    ensures forall k :: k in r.objects ==> r.objects[k] == s.objects[k]
  {
    if tmp in s.objects then Emit(s, DeleteBlob(c.bucket, tmp)).(objects := s.objects - {tmp}) else s
  }

  /**
   * The end of _stream_single_object: if the temporary object exists it is
   * copied to the object and deleted, otherwise the failure is only logged;
   * the source is deleted under move_object in both cases.
   */
  function Finalise(c: Config, s: Stores, source: string, objectName: string): (r: Run)
    ensures r.outcome == Completed && TempObject(objectName) !in r.stores.objects
    ensures TempObject(objectName) in s.objects ==>
      objectName in r.stores.objects && r.stores.objects[objectName] == s.objects[TempObject(objectName)]
    ensures TempObject(objectName) !in s.objects ==> r.stores.objects == s.objects
    ensures source in r.stores.files <==> source in s.files && !c.moveObject
  {
    var tmp := TempObject(objectName);
    var s1 :=
      if tmp in s.objects then
        Emit(Emit(s, CopyBlob(c.bucket, tmp, objectName)), DeleteBlob(c.bucket, tmp))
          .(objects := s.objects[objectName := s.objects[tmp]] - {tmp})
      else
        Emit(s, UploadFailed(objectName));
    Run(MoveSource(c, s1, source), Completed)
  }

  /**
   * _stream_single_object: drop a stale temporary object, then with "getfo"
   * write the source straight into the object, with "upload_from_file"
   * upload it into the temporary object (tempVisible says whether that
   * object is there when its existence is checked next), and with any other
   * stream_method raise. Then finalise.
   */
  function StreamSingle(c: Config, s: Stores, source: string, objectName: string, tempVisible: bool): (r: Run)
    ensures TempObject(objectName) !in r.stores.objects
    ensures r.outcome == Raised(InvalidTransferMethod(c.streamMethod)) <==>
      c.streamMethod != GetFoMethod && c.streamMethod != UploadFromFileMethod
    ensures r.outcome.Completed? <==>
      (c.streamMethod == GetFoMethod || c.streamMethod == UploadFromFileMethod) && source in s.files
    ensures r.outcome.Raised? ==> r.stores.files == s.files
  {
    var tmp := TempObject(objectName);
    var s1 := DropStaleTemp(c, s, tmp);
    if c.streamMethod == GetFoMethod then
      var s2 := Emit(s1, GetFo(source, c.bucket, objectName));
      if source !in s.files then
        Run(s2, Raised(SourceNotFound(source)))
      else
        Finalise(c, s2.(objects := s2.objects[objectName := s.files[source]]), source, objectName)
    else if c.streamMethod == UploadFromFileMethod then
      var s2 := Emit(s1, OpenSource(source));
      if source !in s.files then
        Run(s2, Raised(SourceNotFound(source)))
      else
        var s3 := Emit(s2, UploadFromFile(c.bucket, tmp));
        Finalise(c, if tempVisible then s3.(objects := s3.objects[tmp := s.files[source]]) else s3, source, objectName)
    else
      Run(s1, Raised(InvalidTransferMethod(c.streamMethod)))
  }

  /** The errors a transfer itself can raise, as opposed to those of planning. */
  predicate TransferError(e: Error) {
    e.SourceNotFound? || e.InvalidTransferMethod?
  }

  /** One transfer; use_stream alone picks the strategy. */
  function TransferOne(c: Config, s: Stores, t: Transfer, tempVisible: string -> bool): (r: Run)
    ensures r.outcome.Completed? ==> t.source in s.files
    ensures r.outcome.Raised? ==> r.stores.files == s.files
    ensures r.outcome.Raised? ==> TransferError(r.outcome.error)
    ensures r.stores.files.Keys <= s.files.Keys
  {
    if c.useStream then StreamSingle(c, s, t.source, t.objectName, tempVisible(TempObject(t.objectName)))
    else CopySingle(c, s, t.source, t.objectName)
  }

  /** The transfers in order; the first one that raises ends the run. */
  function TransferAll(c: Config, s: Stores, ts: seq<Transfer>, tempVisible: string -> bool): (r: Run)
    ensures r.outcome.Completed? ==> forall t :: t in ts ==> t.source in s.files
    ensures r.outcome.Raised? ==> TransferError(r.outcome.error)
    ensures r.stores.files.Keys <= s.files.Keys
    decreases |ts|
  {
    if ts == [] then Run(s, Completed)
    else
      var r := TransferAll(c, s, ts[..|ts| - 1], tempVisible);
      if r.outcome.Raised? then r else TransferOne(c, r.stores, ts[|ts| - 1], tempVisible)
  }

  /**
   * execute: normalise the destination path and bucket name, resolve the
   * source path, and run the transfers (listing the base path first in the
   * wildcard case). c.bucket and destinationPath are the values before
   * normalisation.
   */
  function Execute(c: Config, sourcePath: string, destinationPath: Option<string>, s: Stores,
                   listing: seq<string>, tempVisible: string -> bool): (r: Run)
    ensures r.outcome.Raised? && !TransferError(r.outcome.error) ==> r.stores == s
    ensures r.stores.files.Keys <= s.files.Keys
  {
    var cn := c.(bucket := SetBucketName(c.bucket));
    var dest := SetDestinationPath(destinationPath);
    match Resolve(sourcePath, dest)
    case Rejected(e) => Run(s, Raised(e))
    case Single(t) => TransferOne(cn, s, t, tempVisible)
    case Expand(basePath, prefix, delimiter) =>
      var s1 := Emit(s, ListTree(basePath, prefix, delimiter));
      TransferAll(cn, s1, WildcardTransfers(listing, basePath, dest), tempVisible)
  }

  // ---------------------------------------------------------------------
  // Copy mode
  // ---------------------------------------------------------------------

  /**
   * Copy mode: the retrieval precedes the upload to the normalised bucket
   * with the configured MIME type and gzip flag, and delete_file(source)
   * comes once, last, and only under move_object. A missing source raises
   * after the retrieval and changes nothing.
   */
  lemma CopyProtocol(c: Config, s: Stores, source: string, objectName: string)
    ensures var r := CopySingle(c, s, source, objectName);
      source in s.files ==>
        r.outcome == Completed &&
        r.stores.trace == s.trace + [RetrieveFile(source), Upload(c.bucket, objectName, c.mimeType, c.gzip)] +
                          MoveEvents(c, source) &&
        r.stores.objects == s.objects[objectName := s.files[source]] &&
        r.stores.files == if c.moveObject then s.files - {source} else s.files
    ensures var r := CopySingle(c, s, source, objectName);
      source !in s.files ==>
        r == Run(s.(trace := s.trace + [RetrieveFile(source)]), Raised(SourceNotFound(source)))
  {
  }

  // ---------------------------------------------------------------------
  // Stream mode
  // ---------------------------------------------------------------------

  /** A stale temporary object is deleted before any other call of the transfer. */
  lemma StreamDropsStaleTempFirst(c: Config, s: Stores, source: string, objectName: string, tempVisible: bool)
    requires TempObject(objectName) in s.objects
    ensures var r := StreamSingle(c, s, source, objectName, tempVisible);
      |r.stores.trace| > |s.trace| && r.stores.trace[..|s.trace| + 1] == s.trace + [DeleteBlob(c.bucket, TempObject(objectName))]
  {
    var r := StreamSingle(c, s, source, objectName, tempVisible);
    var s1 := DropStaleTemp(c, s, TempObject(objectName));
    assert s1.trace == s.trace + [DeleteBlob(c.bucket, TempObject(objectName))];
    assert s1.trace <= r.stores.trace;
  }

  /**
   * An unrecognised stream_method raises after the stale temporary object
   * has been dropped and before the source is read: nothing else changes,
   * and the source is not deleted.
   */
  lemma StreamRejectsUnknownMethod(c: Config, s: Stores, source: string, objectName: string, tempVisible: bool)
    requires c.streamMethod != GetFoMethod && c.streamMethod != UploadFromFileMethod
    ensures var r := StreamSingle(c, s, source, objectName, tempVisible);
      r.outcome == Raised(InvalidTransferMethod(c.streamMethod)) &&
      r.stores.files == s.files &&
      r.stores.objects == s.objects - {TempObject(objectName)} &&
      r.stores.trace == s.trace + StaleEvents(c, s, TempObject(objectName))
  {
  }

  /**
   * upload_from_file, temporary object present after the upload: the object
   * holds the uploaded bytes, the temporary object is gone and no other key
   * of the bucket changes.
   */
  lemma StreamUploadCommits(c: Config, s: Stores, source: string, objectName: string)
    requires c.streamMethod == UploadFromFileMethod && source in s.files
    ensures var r := StreamSingle(c, s, source, objectName, true);
      var tmp := TempObject(objectName);
      r.outcome == Completed &&
      objectName in r.stores.objects && r.stores.objects[objectName] == s.files[source] &&
      tmp !in r.stores.objects &&
      (forall k :: k != objectName && k != tmp ==>
        (k in r.stores.objects <==> k in s.objects) &&
        (k in s.objects ==> r.stores.objects[k] == s.objects[k])) &&
      r.stores.trace == s.trace + StaleEvents(c, s, tmp) +
        [OpenSource(source), UploadFromFile(c.bucket, tmp), CopyBlob(c.bucket, tmp, objectName), DeleteBlob(c.bucket, tmp)] +
        MoveEvents(c, source)
  {
  }

  /**
   * upload_from_file, temporary object absent after the upload: no copy
   * happens, the object is untouched and the failure is logged; the source
   * is still deleted under move_object.
   */
  lemma StreamUploadMissingTemp(c: Config, s: Stores, source: string, objectName: string)
    requires c.streamMethod == UploadFromFileMethod && source in s.files
    ensures var r := StreamSingle(c, s, source, objectName, false);
      var tmp := TempObject(objectName);
      r.outcome == Completed &&
      (objectName in r.stores.objects <==> objectName in s.objects) &&
      (objectName in s.objects ==> r.stores.objects[objectName] == s.objects[objectName]) &&
      r.stores.objects == s.objects - {tmp} &&
      r.stores.files == (if c.moveObject then s.files - {source} else s.files) &&
      r.stores.trace == s.trace + StaleEvents(c, s, tmp) +
        [OpenSource(source), UploadFromFile(c.bucket, tmp), UploadFailed(objectName)] + MoveEvents(c, source)
  {
  }

  /**
   * getfo writes the object directly; the temporary object is already gone,
   * so the "not found" branch is always the one taken and nothing is copied.
   */
  lemma StreamGetFoDirect(c: Config, s: Stores, source: string, objectName: string, tempVisible: bool)
    requires c.streamMethod == GetFoMethod && source in s.files
    ensures var r := StreamSingle(c, s, source, objectName, tempVisible);
      var tmp := TempObject(objectName);
      r.outcome == Completed &&
      r.stores.objects == (s.objects - {tmp})[objectName := s.files[source]] &&
      r.stores.files == (if c.moveObject then s.files - {source} else s.files) &&
      r.stores.trace == s.trace + StaleEvents(c, s, tmp) +
        [GetFo(source, c.bucket, objectName), UploadFailed(objectName)] + MoveEvents(c, source)
  {
  }

  /**
   * A source missing on the server raises at the first read, after the
   * cleanup: the stream is opened (getfo or file) and nothing else happens.
   */
  lemma StreamMissingSource(c: Config, s: Stores, source: string, objectName: string, tempVisible: bool)
    requires c.streamMethod == GetFoMethod || c.streamMethod == UploadFromFileMethod
    requires source !in s.files
    ensures var r := StreamSingle(c, s, source, objectName, tempVisible);
      var tmp := TempObject(objectName);
      r.outcome == Raised(SourceNotFound(source)) &&
      r.stores.files == s.files &&
      r.stores.objects == s.objects - {tmp} &&
      r.stores.trace == s.trace + StaleEvents(c, s, tmp) +
        [if c.streamMethod == GetFoMethod then GetFo(source, c.bucket, objectName) else OpenSource(source)]
  {
  }

  // ---------------------------------------------------------------------
  // Either mode
  // ---------------------------------------------------------------------

  /** A run only appends to the trace and only removes server files. */
  ghost predicate Extends(s: Stores, r: Stores) {
    && s.trace <= r.trace
    && r.files.Keys <= s.files.Keys
    && forall p :: p in r.files ==> r.files[p] == s.files[p]
  }

  lemma TransferOneExtends(c: Config, s: Stores, t: Transfer, tempVisible: string -> bool)
    ensures Extends(s, TransferOne(c, s, t, tempVisible).stores)
  {
  }

  /**
   * After a completed transfer the source is gone exactly when move_object
   * is set, whatever happened to the temporary object, and then the last
   * call made was its deletion.
   */
  lemma TransferOneMove(c: Config, s: Stores, t: Transfer, tempVisible: string -> bool)
    requires TransferOne(c, s, t, tempVisible).outcome == Completed
    ensures var r := TransferOne(c, s, t, tempVisible);
      (t.source in r.stores.files <==> !c.moveObject) &&
      (c.moveObject ==> r.stores.trace[|r.stores.trace| - 1] == DeleteFile(t.source))
  {
  }

  /** Without move_object a transfer deletes no server file and never calls delete_file. */
  lemma TransferOneKeepsSources(c: Config, s: Stores, t: Transfer, tempVisible: string -> bool)
    requires !c.moveObject
    ensures var r := TransferOne(c, s, t, tempVisible).stores;
      r.files == s.files && NoSourceDeletion(s.trace, r.trace)
  {
    if c.useStream {
      StreamKeepsSources(c, s, t.source, t.objectName, tempVisible(TempObject(t.objectName)));
    } else {
      CopyProtocol(c, s, t.source, t.objectName);
      if t.source in s.files {
        NoSourceDeletionOf(s.trace, [RetrieveFile(t.source), Upload(c.bucket, t.objectName, c.mimeType, c.gzip)]);
      } else {
        NoSourceDeletionOf(s.trace, [RetrieveFile(t.source)]);
      }
    }
  }

  /** The events a trace gained hold no deletion of a server file. */
  predicate NoSourceDeletion(before: seq<Event>, after: seq<Event>) {
    before <= after && forall e :: e in after[|before|..] ==> !e.DeleteFile?
  }

  lemma NoSourceDeletionOf(before: seq<Event>, added: seq<Event>)
    requires forall e :: e in added ==> !e.DeleteFile?
    ensures NoSourceDeletion(before, before + added)
  {
    assert (before + added)[|before|..] == added;
  }

  lemma NoSourceDeletionTrans(a: seq<Event>, b: seq<Event>, d: seq<Event>)
    requires NoSourceDeletion(a, b) && NoSourceDeletion(b, d)
    ensures NoSourceDeletion(a, d)
  {
    assert d[|a|..] == b[|a|..] + d[|b|..];
  }

  /** Without move_object a stream transfer deletes no server file. */
  lemma StreamKeepsSources(c: Config, s: Stores, source: string, objectName: string, tempVisible: bool)
    requires !c.moveObject
    ensures var r := StreamSingle(c, s, source, objectName, tempVisible).stores;
      r.files == s.files && NoSourceDeletion(s.trace, r.trace)
  {
    var tmp := TempObject(objectName);
    var stale := StaleEvents(c, s, tmp);
    if c.streamMethod != GetFoMethod && c.streamMethod != UploadFromFileMethod {
      StreamRejectsUnknownMethod(c, s, source, objectName, tempVisible);
      NoSourceDeletionOf(s.trace, stale);
    } else if source !in s.files {
      StreamMissingSource(c, s, source, objectName, tempVisible);
      var e := if c.streamMethod == GetFoMethod then GetFo(source, c.bucket, objectName) else OpenSource(source);
      NoSourceDeletionOf(s.trace, stale + [e]);
    } else if c.streamMethod == GetFoMethod {
      StreamGetFoDirect(c, s, source, objectName, tempVisible);
      NoSourceDeletionOf(s.trace, stale + [GetFo(source, c.bucket, objectName), UploadFailed(objectName)]);
    } else if tempVisible {
      StreamUploadCommits(c, s, source, objectName);
      NoSourceDeletionOf(s.trace, stale +
        [OpenSource(source), UploadFromFile(c.bucket, tmp), CopyBlob(c.bucket, tmp, objectName), DeleteBlob(c.bucket, tmp)]);
    } else {
      StreamUploadMissingTemp(c, s, source, objectName);
      NoSourceDeletionOf(s.trace, stale + [OpenSource(source), UploadFromFile(c.bucket, tmp), UploadFailed(objectName)]);
    }
  }

  /** use_stream alone picks the strategy: stream_method is ignored in copy mode. */
  lemma CopyIgnoresStreamMethod(c: Config, s: Stores, t: Transfer, tempVisible: string -> bool, m: string)
    requires !c.useStream
    ensures TransferOne(c.(streamMethod := m), s, t, tempVisible) == TransferOne(c, s, t, tempVisible)
  {
  }

  // ---------------------------------------------------------------------
  // The loop over the listed files
  // ---------------------------------------------------------------------

  lemma {:induction false} TransferAllExtends(c: Config, s: Stores, ts: seq<Transfer>, tempVisible: string -> bool)
    ensures Extends(s, TransferAll(c, s, ts, tempVisible).stores)
    decreases |ts|
  {
    if ts != [] {
      var r := TransferAll(c, s, ts[..|ts| - 1], tempVisible);
      TransferAllExtends(c, s, ts[..|ts| - 1], tempVisible);
      if r.outcome.Completed? {
        TransferOneExtends(c, r.stores, ts[|ts| - 1], tempVisible);
      }
    }
  }

  /** An error on one transfer aborts the remaining ones. */
  lemma {:induction false} TransferAllStopsAtError(c: Config, s: Stores, ts: seq<Transfer>, rest: seq<Transfer>,
                                                  tempVisible: string -> bool)
    requires TransferAll(c, s, ts, tempVisible).outcome.Raised?
    ensures TransferAll(c, s, ts + rest, tempVisible) == TransferAll(c, s, ts, tempVisible)
    decreases |rest|
  {
    if rest == [] {
      assert ts + rest == ts;
    } else {
      var front := rest[..|rest| - 1];
      assert (ts + rest)[..|ts + rest| - 1] == ts + front;
      TransferAllStopsAtError(c, s, ts, front, tempVisible);
    }
  }

  /** An error within the first n transfers is the result of the whole run. */
  lemma TransferAllStopsAtPrefix(c: Config, s: Stores, ts: seq<Transfer>, n: nat, tempVisible: string -> bool)
    requires n <= |ts| && TransferAll(c, s, ts[..n], tempVisible).outcome.Raised?
    ensures TransferAll(c, s, ts, tempVisible) == TransferAll(c, s, ts[..n], tempVisible)
  {
    assert ts == ts[..n] + ts[n..];
    TransferAllStopsAtError(c, s, ts[..n], ts[n..], tempVisible);
  }

  /** Under move_object a completed run has deleted every listed source. */
  lemma {:induction false} TransferAllMovesSources(c: Config, s: Stores, ts: seq<Transfer>, tempVisible: string -> bool)
    requires c.moveObject && TransferAll(c, s, ts, tempVisible).outcome == Completed
    ensures forall t :: t in ts ==> t.source !in TransferAll(c, s, ts, tempVisible).stores.files
    decreases |ts|
  {
    if ts != [] {
      var front := ts[..|ts| - 1];
      var r := TransferAll(c, s, front, tempVisible);
      TransferAllMovesSources(c, s, front, tempVisible);
      TransferOneMove(c, r.stores, ts[|ts| - 1], tempVisible);
      TransferOneExtends(c, r.stores, ts[|ts| - 1], tempVisible);
      assert forall t :: t in ts ==> t in front || t == ts[|ts| - 1];
    }
  }

  /** Without move_object no file of the server is deleted, and delete_file is never called. */
  lemma {:induction false} TransferAllKeepsSources(c: Config, s: Stores, ts: seq<Transfer>, tempVisible: string -> bool)
    requires !c.moveObject
    ensures var r := TransferAll(c, s, ts, tempVisible).stores;
      r.files == s.files && NoSourceDeletion(s.trace, r.trace)
    decreases |ts|
  {
    if ts != [] {
      var front := ts[..|ts| - 1];
      var r := TransferAll(c, s, front, tempVisible);
      TransferAllKeepsSources(c, s, front, tempVisible);
      if r.outcome.Completed? {
        var r2 := TransferOne(c, r.stores, ts[|ts| - 1], tempVisible).stores;
        TransferOneKeepsSources(c, r.stores, ts[|ts| - 1], tempVisible);
        NoSourceDeletionTrans(s.trace, r.stores.trace, r2.trace);
      }
    }
  }

  /** The calls that copy mode makes for the transfers, in order. */
  function CopyEvents(c: Config, ts: seq<Transfer>): seq<Event>
    decreases |ts|
  {
    if ts == [] then []
    else
      var t := ts[|ts| - 1];
      CopyEvents(c, ts[..|ts| - 1]) +
        [RetrieveFile(t.source), Upload(c.bucket, t.objectName, c.mimeType, c.gzip)] + MoveEvents(c, t.source)
  }

  /**
   * A completed copy-mode run makes, for each transfer in listing order,
   * the retrieval, the upload and (under move_object) the deletion.
   */
  lemma {:induction false} TransferAllCopyOrder(c: Config, s: Stores, ts: seq<Transfer>, tempVisible: string -> bool)
    requires !c.useStream && TransferAll(c, s, ts, tempVisible).outcome == Completed
    ensures TransferAll(c, s, ts, tempVisible).stores.trace == s.trace + CopyEvents(c, ts)
    decreases |ts|
  {
    if ts != [] {
      var front := ts[..|ts| - 1];
      var r := TransferAll(c, s, front, tempVisible);
      TransferAllCopyOrder(c, s, front, tempVisible);
      var t := ts[|ts| - 1];
      CopyProtocol(c, r.stores, t.source, t.objectName);
    }
  }

  // ---------------------------------------------------------------------
  // execute
  // ---------------------------------------------------------------------

  /** Two or more wildcards raise with their count before any call: nothing is listed, moved or deleted. */
  lemma ExecuteRejectsWildcards(c: Config, sourcePath: string, destinationPath: Option<string>, s: Stores,
                                listing: seq<string>, tempVisible: string -> bool)
    requires CountChar(sourcePath, Wildcard) > 1
    ensures Execute(c, sourcePath, destinationPath, s, listing, tempVisible) ==
      Run(s, Raised(TooManyWildcards(CountChar(sourcePath, Wildcard), sourcePath)))
  {
  }

  /**
   * With one wildcard the first call is the listing of the prefix's
   * directory, with the text before and after the wildcard.
   */
  lemma ExecuteListsFirst(c: Config, sourcePath: string, destinationPath: Option<string>, s: Stores,
                          listing: seq<string>, tempVisible: string -> bool)
    requires CountChar(sourcePath, Wildcard) == 1
    ensures var r := Execute(c, sourcePath, destinationPath, s, listing, tempVisible);
      var parts := SplitAtFirst(sourcePath, Wildcard);
      |r.stores.trace| > |s.trace| &&
      r.stores.trace[..|s.trace| + 1] == s.trace + [ListTree(Dirname(parts.0), parts.0, parts.1)]
  {
    ExecuteWildcard(c, sourcePath, destinationPath, s, listing, tempVisible);
    var parts := SplitAtFirst(sourcePath, Wildcard);
    var basePath := Dirname(parts.0);
    var s1 := Emit(s, ListTree(basePath, parts.0, parts.1));
    var ts := WildcardTransfers(listing, basePath, SetDestinationPath(destinationPath));
    var cn := c.(bucket := SetBucketName(c.bucket));
    TransferAllExtends(cn, s1, ts, tempVisible);
    var r := TransferAll(cn, s1, ts, tempVisible);
    assert |s1.trace| == |s.trace| + 1;
    assert r.stores.trace[..|s1.trace|] == s1.trace;
  }

  /** Without a wildcard exactly one transfer runs. */
  lemma ExecuteSingle(c: Config, sourcePath: string, destinationPath: Option<string>, s: Stores,
                      listing: seq<string>, tempVisible: string -> bool)
    requires Wildcard !in sourcePath
    requires SetDestinationPath(destinationPath) != "" || '/' in sourcePath
    ensures var dest := SetDestinationPath(destinationPath);
      var name := if dest != "" then dest else AfterLastSlash(sourcePath).value;
      Execute(c, sourcePath, destinationPath, s, listing, tempVisible) ==
        TransferOne(c.(bucket := SetBucketName(c.bucket)), s, Transfer(sourcePath, name), tempVisible)
  {
  }

  /** With one wildcard the listed files are transferred in listing order after the listing call. */
  lemma ExecuteWildcard(c: Config, sourcePath: string, destinationPath: Option<string>, s: Stores,
                        listing: seq<string>, tempVisible: string -> bool)
    requires CountChar(sourcePath, Wildcard) == 1
    ensures var dest := SetDestinationPath(destinationPath);
      var parts := SplitAtFirst(sourcePath, Wildcard);
      var basePath := Dirname(parts.0);
      Execute(c, sourcePath, destinationPath, s, listing, tempVisible) ==
        TransferAll(c.(bucket := SetBucketName(c.bucket)), Emit(s, ListTree(basePath, parts.0, parts.1)),
                    WildcardTransfers(listing, basePath, dest), tempVisible)
  {
    var res := Resolve(sourcePath, SetDestinationPath(destinationPath));
    SplitAtFirstUnique(sourcePath, Wildcard, res.prefix, res.delimiter);
  }

  lemma TransferAllOne(c: Config, s: Stores, t: Transfer, tempVisible: string -> bool)
    ensures TransferAll(c, s, [t], tempVisible) == TransferOne(c, s, t, tempVisible)
  {
    assert [t][..0] == [];
  }

  /** In the end-to-end case execute comes down to one copy after the listing. */
  lemma ExecuteExampleIsOneCopy(c: Config, s: Stores, tempVisible: string -> bool)
    requires !c.useStream
    ensures Execute(c, "/home/*.csv", Some("archive"), s, ["/home/data.csv"], tempVisible) ==
      CopySingle(c.(bucket := SetBucketName(c.bucket)), Emit(s, ListTree("/home", "/home/", ".csv")),
                 "/home/data.csv", "archive/data.csv")
  {
    SetDestinationPathKeeps("archive");
    WildcardResolveExample();
    WildcardTransfersExample();
    TransferAllOne(c.(bucket := SetBucketName(c.bucket)), Emit(s, ListTree("/home", "/home/", ".csv")),
                   Transfer("/home/data.csv", "archive/data.csv"), tempVisible);
  }

  /** The calls of that copy, after the listing. */
  lemma ExampleCopyTrace(c: Config, s: Stores)
    requires !c.moveObject && "/home/data.csv" in s.files
    ensures CopySingle(c, Emit(s, ListTree("/home", "/home/", ".csv")), "/home/data.csv", "archive/data.csv").stores.trace ==
      s.trace + [ListTree("/home", "/home/", ".csv"), RetrieveFile("/home/data.csv"),
                 Upload(c.bucket, "archive/data.csv", c.mimeType, c.gzip)]
  {
    CopyProtocol(c, Emit(s, ListTree("/home", "/home/", ".csv")), "/home/data.csv", "archive/data.csv");
  }

  /**
   * The end-to-end case: source "/home/" + "*" + ".csv", destination
   * "archive", one listed file "/home/data.csv", copy mode without move:
   * the listing, then the retrieval, then the upload to "archive/data.csv".
   */
  lemma ExecuteExample(c: Config, s: Stores, tempVisible: string -> bool)
    requires !c.useStream && !c.moveObject && "/home/data.csv" in s.files
    ensures var r := Execute(c, "/home/*.csv", Some("archive"), s, ["/home/data.csv"], tempVisible);
      r.outcome == Completed &&
      r.stores.trace == s.trace + [
        ListTree("/home", "/home/", ".csv"),
        RetrieveFile("/home/data.csv"),
        Upload(SetBucketName(c.bucket), "archive/data.csv", c.mimeType, c.gzip)] &&
      r.stores.objects == s.objects["archive/data.csv" := s.files["/home/data.csv"]]
  {
    ExecuteExampleIsOneCopy(c, s, tempVisible);
    var cn := c.(bucket := SetBucketName(c.bucket));
    ExampleCopyTrace(cn, s);
    CopyProtocol(cn, Emit(s, ListTree("/home", "/home/", ".csv")), "/home/data.csv", "archive/data.csv");
  }
}
