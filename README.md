# SFTP to Cloud Storage transfer operator, modelled in Dafny

This project models the core of Airflow's `SFTPToGCSOperator`. The operator
copies one file, or every file matched by a single `*` wildcard, from an
SFTP server into a Google Cloud Storage bucket. It works in one of two modes:

- Copy mode retrieves the file into a local temporary file and uploads that file.
- Stream mode pipes the bytes directly, and has two methods:
  - `getfo` writes straight into the destination object.
  - `upload_from_file` writes into `<object>.tmp`. If that temporary object
    exists afterwards, it is copied to the destination and deleted.

Under `move_object`, the source file is deleted after each transfer.

The project has six modules:

- `Wrappers`: `Option`, for the absent destination path and the missing object name.
- `Names`: the two static normalisers. Each is stated through the slash-stripping
  it is built from (`str.lstrip`, `str.rstrip`, `str.strip` with `"/"`).
- `TextOps`: Python's `str.count`, `str.split(c, 1)`, `str.replace(old, new, 1)`,
  `str.rsplit("/", 1)[1]` and CPython's `posixpath.dirname`. Each comes with a
  contract that characterises its result.
- `Planning`: the path resolution of `execute`. It computes how `source_path`
  and the normalised destination path become the ordered list of
  (source, object) transfers.
- `Protocol`: the transfers as functions over the abstract state. Besides the
  settings, that state is:
  - the server's files, `map<string, seq<byte>>`;
  - the bucket's objects, `map<string, seq<byte>>`;
  - an ordered trace of hook calls.
  Lemmas state what each mode guarantees.
- `Operator`: the class `SftpToGcsOperator`. Its fields are the operator's
  settings plus the two stores and the trace. Its methods update those fields
  step by step, as the Python does. Each method is proved to end in exactly
  the state the matching `Protocol` function gives, so the `Protocol` lemmas
  hold of the methods.

Where the code and its prose description disagree, the model follows the code:

- `_set_destination_path` removes every leading `/` (`lstrip`), not just one.
- In the wildcard case, an empty destination path does not fall back to the
  base name. The base path is replaced by `""`, so the key keeps the slash that
  followed it (`Planning.EmptyDestinationKeepsLeadingSlash`).
- The stale `<object>.tmp` is dropped in both stream methods, not only in
  `upload_from_file`.
- An unknown `stream_method` raises only after that cleanup, so one deletion
  of the stale temporary object may already have happened. It still raises
  before any read of the source.
- With `getfo`, the existence check on the temporary object still runs. It
  always finds nothing, because the object was written directly, so the
  "upload failed" log line is always emitted.
- Under `move_object`, the source is deleted whether or not that check found
  the temporary object.

Error conditions are values of `Planning.Error`:

- `TooManyWildcards(count, path)`: the `AirflowException` for two or more `*`.
- `NoObjectName(path)`: the `IndexError` from `rsplit("/", 1)[1]` on a path
  without `/`. Python's conditional expression is lazy, so this can only
  happen when the normalised destination path is empty.
- `SourceNotFound(path)`: a hook reading a path the server does not have.
- `InvalidTransferMethod(method)`: the `ValueError` for an unknown `stream_method`.

An error ends `execute` at once. The transfers already made stay made.

## Model

| member | source | states |
|---|---|---|
| `Names.LStripSlashes` | airflow/providers/google/cloud/transfers/sftp_to_gcs.py:257 | the result is a suffix of the input; only slashes were removed in front of it; it does not start with `/` |
| `Names.RStripSlashes` | airflow/providers/google/cloud/transfers/sftp_to_gcs.py:263 | the result is a prefix of the input; only slashes were removed after it; it does not end with `/` |
| `Names.StripSlashes` | airflow/providers/google/cloud/transfers/sftp_to_gcs.py:263 | the result neither starts nor ends with `/`; the input is the result framed by runs of slashes only |
| `Names.SetDestinationPath` | airflow/providers/google/cloud/transfers/sftp_to_gcs.py:254-258 | None gives `""`; a path not starting with `/` is returned unchanged; otherwise all leading slashes and nothing else are removed; the result never starts with `/` |
| `Names.SetDestinationPathIdempotent` | airflow/providers/google/cloud/transfers/sftp_to_gcs.py:254-258 | normalising an already normalised path changes nothing |
| `Names.SetDestinationPathKeeps` | airflow/providers/google/cloud/transfers/sftp_to_gcs.py:256-257 | a path that is empty or does not start with `/` is returned as it is |
| `Names.SetDestinationPathExamples` | airflow/providers/google/cloud/transfers/sftp_to_gcs.py:254-258 | `"/a/b"` and `"//a/b"` give `"a/b"`; `"a/b"`, `""` and None give `"a/b"`, `""`, `""` |
| `Names.SetBucketName` | airflow/providers/google/cloud/transfers/sftp_to_gcs.py:260-263 | the result neither starts nor ends with `/`; it is what remains after at most one leading `gs://` and then only surrounding slashes are removed |
| `Names.SetBucketNameExamples` | airflow/providers/google/cloud/transfers/sftp_to_gcs.py:260-263 | `"gs://my-bucket/"`, `"my-bucket"` and `"/my-bucket//"` all give `"my-bucket"` |
| `Names.SetBucketNameNotIdempotent` | airflow/providers/google/cloud/transfers/sftp_to_gcs.py:260-263 | `"gs://gs://x"` gives `"gs://x"`; normalising twice gives something else, so the normaliser is not idempotent |
| `TextOps.CountChar` | airflow/providers/google/cloud/transfers/sftp_to_gcs.py:144 | the count is at most the length, and zero exactly when the character does not occur |
| `TextOps.CountCharConcat` | airflow/providers/google/cloud/transfers/sftp_to_gcs.py:144 | the count over a concatenation is the sum of the counts |
| `TextOps.CountAndSplitOne` | airflow/providers/google/cloud/transfers/sftp_to_gcs.py:144-151 | a path with exactly one `*` counts one and splits into the text before and after it |
| `TextOps.IndexOfChar` | airflow/providers/google/cloud/transfers/sftp_to_gcs.py:151 | the index of the first occurrence of a character that occurs |
| `TextOps.SplitAtFirst` | airflow/providers/google/cloud/transfers/sftp_to_gcs.py:151 | the input is head + separator + tail; the head holds no separator; the tail holds one separator fewer than the input |
| `TextOps.SplitAtFirstUnique` | airflow/providers/google/cloud/transfers/sftp_to_gcs.py:151 | any decomposition around a first separator is the one the split returns |
| `TextOps.LastIndexOfChar` | airflow/providers/google/cloud/transfers/sftp_to_gcs.py:163 | -1 exactly when the character is absent; otherwise an occurrence with none after it |
| `TextOps.Dirname` | airflow/providers/google/cloud/transfers/sftp_to_gcs.py:152 | a prefix of the path; empty exactly when there is no `/`; everything after it up to the last `/` is slashes; trailing slashes go unless the head is all slashes |
| `TextOps.DirnameExamples` | airflow/providers/google/cloud/transfers/sftp_to_gcs.py:152 | `"/home/"` gives `"/home"`; `"/"` gives `"/"`; `"data.csv"` gives `""` |
| `TextOps.FindFrom` | airflow/providers/google/cloud/transfers/sftp_to_gcs.py:157 | the first occurrence of the pattern at or after the start, or None when there is none |
| `TextOps.ReplaceFirst` | airflow/providers/google/cloud/transfers/sftp_to_gcs.py:157 | no occurrence leaves the string unchanged; otherwise only the first occurrence is replaced and the rest is left as it was |
| `TextOps.ReplaceFirstOfPrefix` | airflow/providers/google/cloud/transfers/sftp_to_gcs.py:157 | a string that starts with the pattern gets the replacement in front of its remainder |
| `TextOps.AfterLastSlash` | airflow/providers/google/cloud/transfers/sftp_to_gcs.py:163 | None exactly when there is no `/` (the IndexError); otherwise the slash-free text after the last `/` |
| `TextOps.AfterLastSlashUnique` | airflow/providers/google/cloud/transfers/sftp_to_gcs.py:163 | any head + `/` + slash-free name is split into that name |
| `TextOps.CountAndSplitExample` | airflow/providers/google/cloud/transfers/sftp_to_gcs.py:144-151 | `"/home/" + "*" + ".csv"` has one wildcard and splits into `"/home/"` and `".csv"` |
| `Planning.Resolve` | airflow/providers/google/cloud/transfers/sftp_to_gcs.py:143-163 | two or more `*` reject with their count, and only then; exactly one splits around it and lists dirname of the prefix; none gives one transfer to the destination path, or to the name after the last `/`, or the no-name error |
| `Planning.WildcardTransfers` | airflow/providers/google/cloud/transfers/sftp_to_gcs.py:156-157 | one transfer per listed file, in listing order; each goes to the file with its first occurrence of the base path replaced |
| `Planning.WildcardTransfersPrefix` | airflow/providers/google/cloud/transfers/sftp_to_gcs.py:156-157 | the plan of a listing prefix is the prefix of the plan |
| `Planning.WildcardObjectKeys` | airflow/providers/google/cloud/transfers/sftp_to_gcs.py:157 | a file under the base path keeps everything after it, behind the destination path |
| `Planning.WildcardTransfersOfOne` | airflow/providers/google/cloud/transfers/sftp_to_gcs.py:156-157 | a single listed file base + rest is planned to go to destination + rest |
| `Planning.WildcardResolveExample` | airflow/providers/google/cloud/transfers/sftp_to_gcs.py:151-152 | the wildcard path under `/home/` lists `"/home"` with prefix `"/home/"` and delimiter `".csv"` |
| `Planning.WildcardTransfersExample` | airflow/providers/google/cloud/transfers/sftp_to_gcs.py:156-157 | `"/home/data.csv"` goes to `"archive/data.csv"` |
| `Planning.EmptyDestinationKeepsLeadingSlash` | airflow/providers/google/cloud/transfers/sftp_to_gcs.py:157 | with an empty destination `"/home/data.csv"` goes to `"/data.csv"` |
| `Planning.SingleFileExample` | airflow/providers/google/cloud/transfers/sftp_to_gcs.py:162-163 | without a destination, `"/home/data.csv"` goes to `"data.csv"` |
| `Planning.NoObjectNameExample` | airflow/providers/google/cloud/transfers/sftp_to_gcs.py:162-163 | without a destination, `"data.csv"` has no object name |
| `Protocol.MoveSource` | airflow/providers/google/cloud/transfers/sftp_to_gcs.py:196-198 | the move step: the bucket is untouched and the trace gains `delete_file` exactly under move; the source leaves the server exactly under move, and no other file changes |
| `Protocol.CopySingle` | airflow/providers/google/cloud/transfers/sftp_to_gcs.py:170-198 | the retrieval is the first call; the copy completes exactly when the source exists, and then the object holds the file; a missing source raises with the server and the bucket unchanged |
| `Protocol.DropStaleTemp` | airflow/providers/google/cloud/transfers/sftp_to_gcs.py:222-225 | afterwards the temporary object is absent, no other key or value of the bucket changes, the server is untouched, and the trace gains its deletion exactly when it existed |
| `Protocol.Finalise` | airflow/providers/google/cloud/transfers/sftp_to_gcs.py:242-252 | always completes and leaves no temporary object; a present temporary object ends up as the object, an absent one leaves the bucket unchanged; the source is gone exactly under move |
| `Protocol.StreamSingle` | airflow/providers/google/cloud/transfers/sftp_to_gcs.py:200-252 | the temporary object never survives; an unknown method raises exactly the invalid-method error; the transfer completes exactly for a known method and an existing source; an error never deletes the source |
| `Protocol.TransferOne` | airflow/providers/google/cloud/transfers/sftp_to_gcs.py:158-159 | a completed transfer found its source; an error never deletes a server file and is a missing source or an invalid method; server files are only removed |
| `Protocol.TransferAll` | airflow/providers/google/cloud/transfers/sftp_to_gcs.py:156-159 | a completed loop found every listed source on the server; an error is a missing source or an invalid method; server files are only removed |
| `Protocol.Execute` | airflow/providers/google/cloud/transfers/sftp_to_gcs.py:133-168 | any error that is not a transfer error (a missing source or an invalid method), that is too many wildcards or no object name, leaves the stores and the trace unchanged; server files are only removed |
| `Protocol.TempObject` | airflow/providers/google/cloud/transfers/sftp_to_gcs.py:218 | the temporary key is four characters longer than, and so differs from, the object key |
| `Protocol.CopyProtocol` | airflow/providers/google/cloud/transfers/sftp_to_gcs.py:185-198 | the retrieval, then the upload to the bucket with the MIME type and gzip flag, then `delete_file` once and only under move; the object holds the file and its source is gone exactly under move; a missing source raises after the retrieval and changes nothing |
| `Protocol.StreamDropsStaleTempFirst` | airflow/providers/google/cloud/transfers/sftp_to_gcs.py:222-225 | a stale temporary object is deleted before any other call of the transfer |
| `Protocol.StreamRejectsUnknownMethod` | airflow/providers/google/cloud/transfers/sftp_to_gcs.py:222-240 | an unknown method raises after the cleanup, with no read, no upload and no deletion of the source |
| `Protocol.StreamUploadCommits` | airflow/providers/google/cloud/transfers/sftp_to_gcs.py:236-246 | when the temporary object is there after upload_from_file, the object holds the uploaded bytes, the temporary object is gone, no other key changes, and the calls are exactly cleanup, open, upload, copy, delete and move |
| `Protocol.StreamUploadMissingTemp` | airflow/providers/google/cloud/transfers/sftp_to_gcs.py:236-252 | when it is absent, no copy happens, the object is untouched, the failure is logged, and the source is still deleted under move |
| `Protocol.StreamGetFoDirect` | airflow/providers/google/cloud/transfers/sftp_to_gcs.py:227-252 | getfo writes the object directly, the not-found branch is taken, and nothing is copied |
| `Protocol.StreamMissingSource` | airflow/providers/google/cloud/transfers/sftp_to_gcs.py:227-238 | a source missing on the server raises at the first read, after the cleanup, with nothing uploaded or deleted |
| `Protocol.TransferOneExtends` | airflow/providers/google/cloud/transfers/sftp_to_gcs.py:158-159 | a transfer only appends to the trace and only removes server files |
| `Protocol.TransferOneMove` | airflow/providers/google/cloud/transfers/sftp_to_gcs.py:196-198 | after a completed transfer the source is gone exactly under move, and then its deletion was the last call |
| `Protocol.TransferOneKeepsSources` | airflow/providers/google/cloud/transfers/sftp_to_gcs.py:185-252 | without move, no server file changes and `delete_file` is never called |
| `Protocol.StreamKeepsSources` | airflow/providers/google/cloud/transfers/sftp_to_gcs.py:200-252 | without move, a stream transfer changes no server file and never calls `delete_file` |
| `Protocol.CopyIgnoresStreamMethod` | airflow/providers/google/cloud/transfers/sftp_to_gcs.py:158 | in copy mode the value of stream_method makes no difference |
| `Protocol.TransferAllExtends` | airflow/providers/google/cloud/transfers/sftp_to_gcs.py:156-159 | the loop only appends to the trace and only removes server files |
| `Protocol.TransferAllStopsAtError` | airflow/providers/google/cloud/transfers/sftp_to_gcs.py:156-159 | once a transfer raises, the remaining ones change nothing |
| `Protocol.TransferAllStopsAtPrefix` | airflow/providers/google/cloud/transfers/sftp_to_gcs.py:156-159 | an error within the first n transfers is the result of the whole loop |
| `Protocol.TransferAllMovesSources` | airflow/providers/google/cloud/transfers/sftp_to_gcs.py:156-159 | under move, a completed loop has deleted every listed source |
| `Protocol.TransferAllKeepsSources` | airflow/providers/google/cloud/transfers/sftp_to_gcs.py:156-159 | without move, the loop deletes no server file and never calls `delete_file` |
| `Protocol.TransferAllCopyOrder` | airflow/providers/google/cloud/transfers/sftp_to_gcs.py:156-159 | a completed copy-mode loop makes, file by file in listing order, the retrieval, the upload and the move deletion |
| `Protocol.TransferAllOne` | airflow/providers/google/cloud/transfers/sftp_to_gcs.py:156-159 | a one-element plan is that one transfer |
| `Protocol.ExecuteRejectsWildcards` | airflow/providers/google/cloud/transfers/sftp_to_gcs.py:143-149 | two or more `*` raise with their count before any call: the stores and the trace are unchanged |
| `Protocol.ExecuteListsFirst` | airflow/providers/google/cloud/transfers/sftp_to_gcs.py:151-154 | with one `*`, the first call lists dirname of the prefix with the text before and after the `*` |
| `Protocol.ExecuteWildcard` | airflow/providers/google/cloud/transfers/sftp_to_gcs.py:151-159 | with one `*`, the run after the listing is the loop over the planned transfers, to the normalised bucket |
| `Protocol.ExecuteSingle` | airflow/providers/google/cloud/transfers/sftp_to_gcs.py:161-168 | without `*`, exactly one transfer runs, to the destination path or the name after the last `/` |
| `Protocol.ExecuteExampleIsOneCopy` | airflow/providers/google/cloud/transfers/sftp_to_gcs.py:133-159 | in copy mode, the example run is one copy after the listing |
| `Protocol.ExampleCopyTrace` | airflow/providers/google/cloud/transfers/sftp_to_gcs.py:185-194 | the calls of that copy follow the listing |
| `Protocol.ExecuteExample` | airflow/providers/google/cloud/transfers/sftp_to_gcs.py:133-159 | the wildcard path under `/home/` with destination `"archive"` lists, retrieves and uploads `"archive/data.csv"` to the normalised bucket, and completes |
| `Operator.OneMoreTransfer` | airflow/providers/google/cloud/transfers/sftp_to_gcs.py:156-157 | one more listed file adds exactly its transfer to the end of the plan |
| `Operator.StopsAtError` | airflow/providers/google/cloud/transfers/sftp_to_gcs.py:156-159 | an error on one listed file is the result of the whole loop |
| `Operator.SftpToGcsOperator.constructor` | airflow/providers/google/cloud/transfers/sftp_to_gcs.py:97-131 | the settings are stored as given, without normalisation, with the defaults of the optional ones (no destination path, `application/octet-stream`, no gzip, no move, no streaming, `upload_from_file`); the trace starts empty |
| `Operator.DefaultOperator` | airflow/providers/google/cloud/transfers/sftp_to_gcs.py:102-111 | an operator built from the required settings alone has those defaults |
| `Operator.SftpToGcsOperator.DeleteSourceIfMoving` | airflow/providers/google/cloud/transfers/sftp_to_gcs.py:196-198 | the new state is the move step of the protocol |
| `Operator.SftpToGcsOperator.CopySingleObject` | airflow/providers/google/cloud/transfers/sftp_to_gcs.py:170-198 | the new stores, trace and outcome are those of the copy protocol |
| `Operator.SftpToGcsOperator.FinaliseStream` | airflow/providers/google/cloud/transfers/sftp_to_gcs.py:242-252 | the new state is the commit-or-log step followed by the move |
| `Operator.SftpToGcsOperator.StreamSingleObject` | airflow/providers/google/cloud/transfers/sftp_to_gcs.py:200-252 | the new stores, trace and outcome are those of the stream protocol |
| `Operator.SftpToGcsOperator.TransferSingleObject` | airflow/providers/google/cloud/transfers/sftp_to_gcs.py:158-159 | use_stream picks between the two protocols |
| `Operator.SftpToGcsOperator.TransferListed` | airflow/providers/google/cloud/transfers/sftp_to_gcs.py:154-159 | the listing call and then the loop leave the state of the planned transfers run in order, stopping at the first error |
| `Operator.SftpToGcsOperator.Execute` | airflow/providers/google/cloud/transfers/sftp_to_gcs.py:133-168 | the destination path and bucket name are replaced by their normalised forms, and the stores, trace and outcome are those of `Protocol.Execute` on the settings before normalisation |

## Left out

- Hooks are not modelled: their construction, the connection ids,
  impersonation, `template_fields` and the `BaseOperator` base class. These
  are framework plumbing.
- The glob matching of `SFTPHook.get_tree_map`, whose source is not part of
  this model. The listing it returns is an input sequence of paths,
  `listing`, and only the first of its three results is used.
- Real I/O is not modelled: the local `NamedTemporaryFile` and its removal, and
  the network calls. Each state-changing hook call is a trace event plus its
  map update. The `temp_dest_blob.exists()` checks are read off the bucket map
  and are not recorded. Opening `dest_blob` for writing is folded into the
  `GetFo` event; opening the source file for `upload_from_file` is the
  `OpenSource` event.
- Gzip compression and the MIME type: they are passed through to the upload
  event, and the stored bytes are the uncompressed file.
- `sftp_prefetch`, `max_concurrent_prefetch_requests` and `callback`. These are
  performance hints and a progress closure inside the transport library.
- Log messages are not events, except the "upload failed" line of the
  missing-temporary-object branch.
- Hook failures: the only one modelled is reading a path missing from the
  server (`SourceNotFound`). Network errors, permission errors and a failing
  `delete_file` are not modelled.
- Whether the temporary object is visible after `upload_from_file` is an input,
  `tempVisible`, because the model has no concurrency or eventual consistency
  to decide it.
- A `getfo` that fails mid-stream may leave a partly
  written object in the bucket. The model leaves the object untouched on that
  error.
- The error messages' text is not modelled; errors carry only their kind and
  their data.
