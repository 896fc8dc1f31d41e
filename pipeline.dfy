/** The observable behaviour of the thumbnail handler as functions: what one
    notification record does to the object store, the log and the list of
    storage calls, and what a whole batch does. */
module Pipeline {
  import opened Keys

  datatype Option<T> = None | Some(value: T)

  newtype byte = x: int | 0 <= x < 256
  type Bytes = seq<byte>

  /** An object in the storage service: a bucket and a key inside it. */
  datatype ObjectId = ObjectId(bucket: string, key: string)
  type Store = map<ObjectId, Bytes>

  /** The bounding box the thumbnail must fit in (default 128 x 128). */
  datatype Size = Size(width: int, height: int)

  /** The process-wide configuration: the destination bucket and the box. */
  datatype Config = Config(destBucket: string, size: Size)

  /** Decode, shrink to fit the box, and encode under the given output file
      name, whose extension picks the output format: None when the bytes are
      not an image the codec can read, or the name gives no format it can
      write. */
  type Codec = (Size, Bytes, string) -> Option<Bytes>

  /** One notification record; a field is None when the record lacks it. */
  datatype Notification = Notification(bucket: Option<string>, key: Option<string>)

  /** The invocation event; `records` is None when it has no record list. */
  datatype Event = Event(records: Option<seq<Notification>>)

  /** Which transfers fail, by the position of the record in the batch
      (network errors, missing permissions and the like). */
  datatype Faults = Faults(download: set<nat>, upload: set<nat>)

  /** The three steps of the per-record pipeline. */
  datatype Stage = DownloadStage | ThumbnailStage | UploadStage

  /** A log entry, tagged by the message it stands for. */
  datatype LogEntry =
    | Starting
    | SkipNonImage(key: string)
    | SkipThumbnail(key: string)
    | Downloaded(key: string, bucket: string)
    | GeneratingFrom(key: string)
    | Generated(key: string)
    | UploadedTo(bucket: string, key: string)
    | ProcessingError(key: string, stage: Stage)

  datatype Level = Info | Error

  function LevelOf(e: LogEntry): Level
  {
    if e.ProcessingError? then Error else Info
  }

  /** A request made to the storage service. */
  datatype Call = GetObject(id: ObjectId) | PutObject(id: ObjectId)

  /** What became of one record. */
  datatype Disposition =
    | NotAnImage
    | AlreadyThumbnail
    | Abandoned(stage: Stage)
    | Stored(destKey: string)

  predicate Attempted(d: Disposition)
  {
    d.Abandoned? || d.Stored?
  }

  /** The upload was tried: it either failed or stored the thumbnail. */
  predicate UploadAttempted(d: Disposition)
  {
    d == Abandoned(UploadStage) || d.Stored?
  }

  datatype RecordRun = RecordRun(store: Store, log: seq<LogEntry>, calls: seq<Call>, disposition: Disposition)

  /** How an invocation ends: normally, or by an error outside the
      per-record error handling (a missing field). */
  datatype Outcome = Completed | MissingRecords | MalformedRecord(index: nat)

  datatype Run = Run(store: Store, log: seq<LogEntry>, calls: seq<Call>, results: seq<Disposition>, outcome: Outcome)

  /** A download: it fails when the object is absent or the transfer fails. */
  function Fetch(store: Store, id: ObjectId, fault: bool): (r: Option<Bytes>)
    ensures r.Some? <==> !fault && id in store
    ensures r.Some? ==> r.value == store[id]
  {
    if fault || id !in store then None else Some(store[id])
  }

  /** The entries a record logs before `stage` starts. */
  function Progress(bucket: string, key: string, stage: Stage): seq<LogEntry>
  {
    match stage
    case DownloadStage => []
    case ThumbnailStage => [Downloaded(key, bucket), GeneratingFrom(key)]
    case UploadStage => [Downloaded(key, bucket), GeneratingFrom(key), Generated(key)]
  }

  /** One record: the two checks of the filter, then download, thumbnail and
      upload, where the first failing step ends the record with one error
      entry. Its properties are stated by ProcessFilter and ProcessSteps. */
  function Process(cfg: Config, codec: Codec, store: Store, bucket: string, key: string,
                   downloadFault: bool, uploadFault: bool): (r: RecordRun)
  {
    if !HasImageSuffix(key) then
      RecordRun(store, [SkipNonImage(key)], [], NotAnImage)
    else if IsThumbnailKey(key) then
      RecordRun(store, [SkipThumbnail(key)], [], AlreadyThumbnail)
    else
      Attempt(cfg, codec, store, bucket, key, downloadFault, uploadFault)
  }

  /** The body of the try block: download, thumbnail, upload. */
  function Attempt(cfg: Config, codec: Codec, store: Store, bucket: string, key: string,
                   downloadFault: bool, uploadFault: bool): RecordRun
  {
    var get := [GetObject(ObjectId(bucket, key))];
    match Fetch(store, ObjectId(bucket, key), downloadFault)
    case None =>
      RecordRun(store, [ProcessingError(key, DownloadStage)], get, Abandoned(DownloadStage))
    case Some(data) =>
      var rest := AfterDownload(cfg, codec, store, bucket, key, data, uploadFault);
      rest.(calls := get + rest.calls)
  }

  /** The thumbnail and upload steps, once the source bytes are in hand. */
  function AfterDownload(cfg: Config, codec: Codec, store: Store, bucket: string, key: string,
                         data: Bytes, uploadFault: bool): RecordRun
  {
    match codec(cfg.size, data, ThumbKey(key))
    case None =>
      RecordRun(store, Progress(bucket, key, ThumbnailStage) + [ProcessingError(key, ThumbnailStage)],
                [], Abandoned(ThumbnailStage))
    case Some(image) =>
      var thumb := ThumbKey(key);
      var dest := ObjectId(cfg.destBucket, thumb);
      if uploadFault then
        RecordRun(store, Progress(bucket, key, UploadStage) + [ProcessingError(key, UploadStage)],
                  [PutObject(dest)], Abandoned(UploadStage))
      else
        RecordRun(store[dest := image], Progress(bucket, key, UploadStage) + [UploadedTo(cfg.destBucket, thumb)],
                  [PutObject(dest)], Stored(thumb))
  }

  /** The filter, suffix check first; a skipped record logs one skip entry,
      calls nothing and changes nothing; an attempted record reads its
      source object once and writes at most once, to the destination
      bucket under the thumbnail key; an abandoned record logs exactly one
      error entry, as its last entry. */
  lemma ProcessFilter(cfg: Config, codec: Codec, store: Store, bucket: string, key: string,
                      downloadFault: bool, uploadFault: bool)
    ensures var r := Process(cfg, codec, store, bucket, key, downloadFault, uploadFault);
            |r.log| >= 1 &&
            (r.disposition == NotAnImage <==> !HasImageSuffix(key)) &&
            (r.disposition == AlreadyThumbnail <==> HasImageSuffix(key) && IsThumbnailKey(key)) &&
            (Attempted(r.disposition) <==> Eligible(key)) &&
            (!Attempted(r.disposition) ==>
              r.store == store && r.calls == [] &&
              r.log == [if r.disposition == NotAnImage then SkipNonImage(key) else SkipThumbnail(key)]) &&
            (Attempted(r.disposition) ==>
              r.calls == [GetObject(ObjectId(bucket, key))] +
                         (if UploadAttempted(r.disposition)
                          then [PutObject(ObjectId(cfg.destBucket, ThumbKey(key)))] else [])) &&
            (forall i :: 0 <= i < |r.log| - 1 ==> LevelOf(r.log[i]) == Info) &&
            (LevelOf(r.log[|r.log| - 1]) == Error <==> r.disposition.Abandoned?)
  {
  }

  /** The steps of an eligible record: which one fails, and that the later
      ones are then not performed; or the stored thumbnail of the source
      bytes under "thumb-" + key. */
  lemma ProcessSteps(cfg: Config, codec: Codec, store: Store, bucket: string, key: string,
                     downloadFault: bool, uploadFault: bool)
    ensures var r := Process(cfg, codec, store, bucket, key, downloadFault, uploadFault);
            (r.disposition == Abandoned(DownloadStage) <==>
              Eligible(key) && Fetch(store, ObjectId(bucket, key), downloadFault).None?) &&
            (r.disposition == Abandoned(ThumbnailStage) <==>
              Eligible(key) && Fetch(store, ObjectId(bucket, key), downloadFault).Some? &&
              codec(cfg.size, store[ObjectId(bucket, key)], ThumbKey(key)).None?) &&
            (r.disposition == Abandoned(UploadStage) <==>
              Eligible(key) && Fetch(store, ObjectId(bucket, key), downloadFault).Some? &&
              codec(cfg.size, store[ObjectId(bucket, key)], ThumbKey(key)).Some? && uploadFault) &&
            (r.disposition.Abandoned? ==>
              r.store == store &&
              r.log == Progress(bucket, key, r.disposition.stage) + [ProcessingError(key, r.disposition.stage)]) &&
            (r.disposition.Stored? ==>
              r.disposition.destKey == ThumbKey(key) &&
              ObjectId(bucket, key) in store && codec(cfg.size, store[ObjectId(bucket, key)], ThumbKey(key)).Some? &&
              r.store == store[ObjectId(cfg.destBucket, ThumbKey(key)) := codec(cfg.size, store[ObjectId(bucket, key)], ThumbKey(key)).value] &&
              r.log == Progress(bucket, key, UploadStage) + [UploadedTo(cfg.destBucket, ThumbKey(key))])
  {
  }

  predicate WellFormed(n: Notification)
  {
    n.bucket.Some? && n.key.Some?
  }

  /** Record `i` of a batch handled on its own against `store`. */
  function Solo(cfg: Config, codec: Codec, faults: Faults, store: Store, n: Notification, i: nat): RecordRun
    requires WellFormed(n)
  {
    Process(cfg, codec, store, n.bucket.value, n.key.value, i in faults.download, i in faults.upload)
  }

  /** The records of a batch in order, each on the store its predecessors
      left; a record that lacks a field stops the batch. */
  function HandleRecords(cfg: Config, codec: Codec, faults: Faults, rs: seq<Notification>, store: Store): (r: Run)
    decreases |rs|
    ensures |r.results| <= |rs|
    ensures forall j :: 0 <= j < |r.results| ==> WellFormed(rs[j])
    ensures r.outcome.Completed? || r.outcome.MalformedRecord?
    ensures r.outcome.Completed? ==> |r.results| == |rs|
    ensures r.outcome.MalformedRecord? ==>
              r.outcome.index == |r.results| < |rs| && !WellFormed(rs[|r.results|])
  {
    if rs == [] then Run(store, [], [], [], Completed)
    else
      var i := |rs| - 1;
      var prev := HandleRecords(cfg, codec, faults, rs[..i], store);
      if !prev.outcome.Completed? then prev
      else if !WellFormed(rs[i]) then prev.(outcome := MalformedRecord(i))
      else
        var step := Solo(cfg, codec, faults, prev.store, rs[i], i);
        Run(step.store, prev.log + step.log, prev.calls + step.calls,
            prev.results + [step.disposition], Completed)
  }

  /** A well-formed record after a completed prefix adds its own effects. */
  lemma HandleRecordsSnoc(cfg: Config, codec: Codec, faults: Faults, rs: seq<Notification>, i: nat, store: Store)
    requires i < |rs| && WellFormed(rs[i])
    requires HandleRecords(cfg, codec, faults, rs[..i], store).outcome.Completed?
    ensures var prev := HandleRecords(cfg, codec, faults, rs[..i], store);
            var step := Solo(cfg, codec, faults, prev.store, rs[i], i);
            HandleRecords(cfg, codec, faults, rs[..i + 1], store) ==
            Run(step.store, prev.log + step.log, prev.calls + step.calls, prev.results + [step.disposition], Completed)
  {
    assert rs[..i + 1][..i] == rs[..i];
  }

  /** A record lacking a field after a completed prefix stops the batch
      with the effects of the prefix. */
  lemma HandleRecordsStop(cfg: Config, codec: Codec, faults: Faults, rs: seq<Notification>, i: nat, store: Store)
    requires i < |rs| && !WellFormed(rs[i])
    requires HandleRecords(cfg, codec, faults, rs[..i], store).outcome.Completed?
    ensures HandleRecords(cfg, codec, faults, rs[..i + 1], store) ==
            HandleRecords(cfg, codec, faults, rs[..i], store).(outcome := MalformedRecord(i))
  {
    assert rs[..i + 1][..i] == rs[..i];
  }

  /** Once a batch has stopped at a malformed record, the records after it
      change nothing: no entry, no call, no write. */
  lemma {:induction false} StoppedStaysStopped(cfg: Config, codec: Codec, faults: Faults,
                                               rs: seq<Notification>, k: nat, store: Store)
    requires k <= |rs|
    requires !HandleRecords(cfg, codec, faults, rs[..k], store).outcome.Completed?
    decreases |rs|
    ensures HandleRecords(cfg, codec, faults, rs, store) == HandleRecords(cfg, codec, faults, rs[..k], store)
  {
    if k < |rs| {
      var i := |rs| - 1;
      assert rs[..i][..k] == rs[..k];
      StoppedStaysStopped(cfg, codec, faults, rs[..i], k, store);
    } else {
      assert rs[..k] == rs;
    }
  }

  /** A batch whose record `i` is the first to lack a field ends there,
      with the effects of the records before it. */
  lemma HandleRecordsStopAt(cfg: Config, codec: Codec, faults: Faults, rs: seq<Notification>, i: nat, store: Store)
    requires i < |rs| && !WellFormed(rs[i])
    requires HandleRecords(cfg, codec, faults, rs[..i], store).outcome.Completed?
    ensures HandleRecords(cfg, codec, faults, rs, store) ==
            HandleRecords(cfg, codec, faults, rs[..i], store).(outcome := MalformedRecord(i))
  {
    HandleRecordsStop(cfg, codec, faults, rs, i, store);
    StoppedStaysStopped(cfg, codec, faults, rs, i + 1, store);
  }

  /** One invocation: the start entry, then the batch. */
  function Handle(cfg: Config, codec: Codec, faults: Faults, event: Event, store: Store): (r: Run)
    ensures |r.log| >= 1 && r.log[0] == Starting
    ensures r.outcome == MissingRecords <==> event.records.None?
    ensures event.records.None? ==> r.store == store && r.log == [Starting] && r.calls == [] && r.results == []
    ensures r.outcome.Completed? ==> |r.results| == |event.records.value|
  {
    match event.records
    case None => Run(store, [Starting], [], [], MissingRecords)
    case Some(rs) =>
      var b := HandleRecords(cfg, codec, faults, rs, store);
      b.(log := [Starting] + b.log)
  }
}
