# Thumbnail handler model

This project models an object-store notification handler in Dafny. The handler runs once per event. It logs a start entry and then walks through the event's notification records in order. Each record names a source bucket and an object key. The handler checks the key in two steps:

- If the key, lower-cased, does not end in `jpg`, `jpeg` or `png`, the record is skipped as a non-image.
- If the key starts with `thumb-`, the record is skipped as an existing thumbnail.

Any other key is processed. The handler downloads the object, shrinks it to fit the configured box and uploads the result to the configured destination bucket under `"thumb-" + key`. When one of these three steps fails, the handler logs one error entry for that record and goes on to the next record. A record that lacks its bucket or key field, or an event with no record list, raises an error that no handler catches, so the invocation stops there.

The project has four modules:

- `Keys` (`keys.dfy`): the two filter checks and the destination key, as pure functions with lemmas about them.
- `Pipeline` (`pipeline.dfy`): the data model and the behaviour as functions.
  - `Process` handles one record. It returns the new store, the log entries, the storage calls and what became of the record.
  - `HandleRecords` handles a batch. Each record runs on the store its predecessors left.
  - `Handle` is one invocation.
- `Properties` (`properties.dfy`): batch-level guarantees. Only writable thumbnail keys are written, failures are isolated per record, the filter holds for every record, and a thumbnail is never processed again.
- `Handler` (`handler.dfy`): the imperative handler. The storage client and the logger are classes whose fields change in place. `LambdaHandler` and the loop inside `HandleBatch` are proved to leave exactly the state that `Handle` / `HandleRecords` describe.

How the model covers what the handler cannot compute itself:

- **Storage** is a map from (bucket, key) to bytes.
- **Transfer failures** come from an oracle, `Faults`, keyed by the record's position in the batch. A download also fails when the object is absent.
- **The image step** is an abstract `Codec`. It is given the box, the source bytes and the output file name, which is the thumbnail key. The name's extension picks the output format. The codec returns `None` when the bytes cannot be read as an image, or when the name gives no format it can write (for example `thumb-weirdjpg`).
- **Log entries** are tagged values. Every one is at info level except the per-record error entry.

## Model

The definitions that carry out the behaviour have no rows of their own. Their properties are stated by the lemma rows below:

- `Pipeline.Process`, `Pipeline.Attempt`, `Pipeline.AfterDownload` and `Pipeline.Progress` (one record, lines 21-44) are covered by `Pipeline.ProcessFilter` and `Pipeline.ProcessSteps`.
- `Pipeline.Solo` (record `i` handled on its own) is covered by `Properties.Isolation`.
- `Keys.HasImageSuffix`, `Keys.IsThumbnailKey` and `Keys.Eligible` (the checks at lines 21 and 25) are covered by `Pipeline.ProcessFilter`, `Properties.ProcessedIff` and the `Keys` example lemmas.

| member | source | states |
|---|---|---|
| Keys.LowerChar | lambda_function.py:21 | upper-case ASCII letters map to their lower-case letter; every other character is unchanged |
| Keys.Lower | lambda_function.py:21 | the lower-cased key has the same length, and each character is the lower-cased character at the same position |
| Keys.ThumbKey | lambda_function.py:29 | the destination key starts with "thumb-", ends with the source key, and is exactly six characters longer |
| Keys.ThumbKeyInjective | lambda_function.py:29 | distinct source keys give distinct destination keys |
| Keys.LowerAppend | lambda_function.py:21 | lower-casing distributes over concatenation |
| Keys.EndsWithAfterDash | lambda_function.py:21 | a suffix with no dash, checked against a string after a dash-terminated prefix, matches iff it matches the part after the prefix |
| Keys.ThumbKeyKeepsSuffix | lambda_function.py:21-29 | the destination key passes the image-suffix check iff the source key does |
| Keys.ThumbKeyNeverEligible | lambda_function.py:25-29 | no destination key passes the filter |
| Keys.ThumbKeyDoublePrefix | lambda_function.py:25-29 | a destination key starts with "thumb-thumb-" iff its source key starts with "thumb-", so no processed key yields one |
| Keys.SuffixExamples | lambda_function.py:21 | "weirdjpg", "photo.JPG" and "b.PnG" pass the suffix check (no dot needed, any case); "doc.pdf" fails it |
| Keys.PrefixExamples | lambda_function.py:21-27 | "THUMB-a.png" is eligible (the prefix check is case-sensitive); "thumb-A.PNG" has an image suffix but is not eligible; "thumb-doc.pdf" fails the suffix check |
| Pipeline.Fetch | lambda_function.py:35 | a download yields bytes iff there is no fault and the object exists, and then yields that object's bytes |
| Pipeline.ProcessFilter | lambda_function.py:21-44 | one record: the suffix check comes first; the record is processed iff the key is eligible; a skipped record logs one skip entry, makes no call and leaves the store; a processed record makes one download and at most one upload, to the destination bucket under the thumbnail key; every entry is at info level except a final error entry, present iff the record was abandoned |
| Pipeline.ProcessSteps | lambda_function.py:31-44 | each way an eligible record can fail: the download fails (absent object or fault), the codec fails, or the upload fails; an abandoned record leaves the store untouched and logs the entries of its completed steps and then one error; a stored record puts the codec's output for the source bytes, written under the name "thumb-" + key, at destination bucket / "thumb-" + key, and logs the upload entry |
| Pipeline.HandleRecords | lambda_function.py:17-44 | the batch visits a prefix of the records, each well-formed; it completes iff every record is visited, and otherwise stops at the first record lacking a field |
| Pipeline.HandleRecordsSnoc | lambda_function.py:17-44 | a well-formed record after a completed prefix adds its own store, entries, calls and disposition |
| Pipeline.HandleRecordsStop | lambda_function.py:18-19 | a record lacking a field, after a completed prefix, stops the batch at its own index and keeps the prefix's effects |
| Pipeline.StoppedStaysStopped | lambda_function.py:17-19 | once the batch has stopped, later records add no entry, call or write |
| Pipeline.HandleRecordsStopAt | lambda_function.py:17-19 | the first record lacking a field ends the batch with that index as outcome and exactly the earlier records' effects |
| Pipeline.Handle | lambda_function.py:15-17 | an invocation logs the start entry first; it ends with the missing-records outcome iff the event has no record list, and then does nothing else; when it completes, every record has a disposition |
| Properties.WriteKeepsOthers | lambda_function.py:41 | storing one writable key removes nothing and leaves every other non-writable object as it was |
| Properties.ProcessWritesOnlyThumbnails | lambda_function.py:29-42 | one record removes nothing and changes no object outside the destination bucket's "thumb-" keys that do not start with "thumb-thumb-" |
| Properties.OnlyThumbnailsWritten | lambda_function.py:17-44 | the same holds for a whole batch, so the source objects are never changed |
| Properties.ProcessReadsOnlySource | lambda_function.py:21-35 | a record's entries, calls and disposition depend on the store only through its own source object, and only when its key is eligible |
| Properties.IsolatedResultAt | lambda_function.py:17-44 | the isolated dispositions have one per record, and each is that record's disposition when handled alone against the original store |
| Properties.IsolationStep | lambda_function.py:31-44 | after a completed prefix, the last record contributes exactly the effects it would have alone against the original store |
| Properties.Isolation | lambda_function.py:31-44 | failure isolation: each visited record's entries, calls and disposition, in input order, equal those it would have alone against the original store, whatever the earlier records did |
| Properties.ProcessedIff | lambda_function.py:21-27 | every visited record is processed iff its key is eligible; it is skipped as a non-image iff the suffix check fails (whatever the prefix), and as a thumbnail iff the suffix passes and the key starts with "thumb-" |
| Properties.StoredUnderThumbKey | lambda_function.py:29-42 | every stored thumbnail's key is "thumb-" + the source key and never starts with "thumb-thumb-" |
| Properties.CallTargets | lambda_function.py:35-41 | every download reads an eligible key, and every upload writes a writable key in the destination bucket |
| Properties.OutputNotReprocessed | lambda_function.py:25-27 | a thumbnail's key, notified as a new object in the destination bucket, is skipped as a thumbnail, with one skip entry, no call and no change |
| Properties.NoExtensionAbandoned | lambda_function.py:21-44 | "weirdjpg" passes the filter; when the codec cannot write the extension-less name "thumb-weirdjpg", the record is downloaded, abandoned at the thumbnail step with one error entry, and nothing is uploaded or stored |
| Properties.WeirdKeyEligible | lambda_function.py:21-29 | "weirdjpg" passes both checks (no dot is needed), and its thumbnail key is "thumb-weirdjpg" |
| Properties.ReprocessIdempotent | lambda_function.py:29-41 | handling a record a second time without faults leaves the store as the first pass left it, with the same disposition and entries |
| Properties.PhotoStep | lambda_function.py:21-42 | "photo.JPG" with a readable object is downloaded, thumbnailed and stored as "thumb-photo.JPG", with the four info entries and two calls |
| Properties.PhotoKeyEligible | lambda_function.py:21-27 | "photo.JPG" passes both checks |
| Properties.OldThumbnailKey | lambda_function.py:21-27 | "thumb-old.png" passes the suffix check and starts with "thumb-" |
| Properties.SkipThumbnailStep | lambda_function.py:25-27 | "thumb-old.png" is skipped as a thumbnail, with one skip entry, no call and no change |
| Properties.SkipNonImageStep | lambda_function.py:21-23 | "doc.pdf" is skipped as a non-image, with one skip entry, no call and no change |
| Properties.ScenarioFirst | lambda_function.py:17-42 | the first record of the three-record batch yields exactly the photo's effects |
| Properties.ScenarioSecond | lambda_function.py:17-27 | the second record of the batch adds only its skip entry and disposition |
| Properties.ThreeRecordScenario | lambda_function.py:17-44 | the batch photo.JPG, thumb-old.png, doc.pdf completes with one upload of thumb-photo.JPG to the destination bucket, a thumbnail skip and a non-image skip, no error entry, and exactly these entries, calls and dispositions in input order |
| Handler.ObjectStore.constructor | lambda_function.py:8 | a fresh client holds the given objects and has made no request |
| Handler.ObjectStore.DownloadFile | lambda_function.py:35 | returns the Fetch result and records one download request; the objects are unchanged |
| Handler.ObjectStore.UploadFile | lambda_function.py:41 | succeeds iff there is no fault, and then replaces the object under the key; it records one upload request |
| Handler.Logger.constructor | lambda_function.py:12-13 | a fresh logger holds no entry |
| Handler.Logger.Log | lambda_function.py:16 | appends exactly one entry |
| Handler.GenerateThumbnail | lambda_function.py:46-50 | logs which file it reads from, then returns the codec's output for the configured box and the output file name |
| Handler.HandleRecord | lambda_function.py:18-44 | the in-place handling of one record leaves the client's objects, the request list and the log exactly as Process describes, and returns its disposition |
| Handler.HandleNext | lambda_function.py:17-44 | one loop pass over a well-formed record extends the state Process describes by one more record of HandleRecords |
| Handler.HandleBatch | lambda_function.py:17-44 | the loop leaves objects, requests and log exactly as HandleRecords describes, and returns its outcome |
| Handler.LambdaHandler | lambda_function.py:15-44 | the entry point leaves objects, requests and log exactly as Handle describes, and returns its outcome |

## Left out

- The storage client library and the network are not modelled. Downloads and uploads act on the map. Their failures (network, permissions, throttling) come from the `Faults` oracle.
- The environment configuration is not modelled. The destination bucket and the thumbnail box are the `Config` parameter. Parsing the box from its environment text, and its default of 128 x 128, are left out.
- Image decoding, resizing and encoding are the abstract `Codec`. Its output may depend on the output file name (the format). No claim is made about the output's dimensions, or about which names give which format.
- Temporary directories and local file paths are not modelled. A failure to write the downloaded file counts as a download fault. A failure to read it, or to write the thumbnail file, counts as a codec failure. The codec sees the output name, so it can fail on a name without an extension. One consequence: a key containing `/` names a local path inside a subdirectory that does not exist. The model does not single such keys out.
- A failure to create the temporary directory, or to remove it when the record is done, happens outside the per-record error handling. Either would end the invocation. Neither is modelled.
- Log formatting is not modelled. Entries are tagged values, and the text of the error message carried by the exception is not kept. `GeneratingFrom(key)` stands for the entry that names the local path the key was downloaded to.
- Keys.Lower: lower-cases only ASCII `A`-`Z`. Unicode case mapping of other letters is not modelled.
- Keys are used exactly as they arrive in the record. The handler does not URL-decode them, and neither does the model.
- The invocation context argument is unused by the handler and is not a parameter.
- Records with a malformed structure beyond a missing bucket or key field (a missing nested object, a non-string key) are not distinguished. Both end the batch with `MalformedRecord`.
