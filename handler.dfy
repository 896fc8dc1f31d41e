/** The handler as the imperative routine it is: a loop over the records of
    the event that reads from and writes to an object-store client and
    appends to a logger, both held in place across the batch. */
module Handler {
  import opened Keys
  import opened Pipeline

  /** The storage client: the objects of every bucket, and the requests
      made so far. */
  class ObjectStore {
    var objects: Store
    var requests: seq<Call>

    constructor (initial: Store)
      ensures objects == initial && requests == []
    {
      objects := initial;
      requests := [];
    }

    /** Downloads an object; fails when it is absent or `fault` holds. */
    method DownloadFile(bucket: string, key: string, fault: bool) returns (data: Option<Bytes>)
      modifies this`requests
      ensures data == Fetch(objects, ObjectId(bucket, key), fault)
      ensures requests == old(requests) + [GetObject(ObjectId(bucket, key))]
    {
      requests := requests + [GetObject(ObjectId(bucket, key))];
      var id := ObjectId(bucket, key);
      if fault || id !in objects {
        data := None;
      } else {
        data := Some(objects[id]);
      }
    }

    /** Uploads an object, replacing any object under the same key; fails,
        changing nothing, when `fault` holds. */
    method UploadFile(bucket: string, key: string, data: Bytes, fault: bool) returns (ok: bool)
      modifies this
      ensures ok == !fault
      ensures objects == if ok then old(objects)[ObjectId(bucket, key) := data] else old(objects)
      ensures requests == old(requests) + [PutObject(ObjectId(bucket, key))]
    {
      requests := requests + [PutObject(ObjectId(bucket, key))];
      ok := !fault;
      if ok {
        objects := objects[ObjectId(bucket, key) := data];
      }
    }
  }

  /** The process-wide logger. */
  class Logger {
    var entries: seq<LogEntry>

    constructor ()
      ensures entries == []
    {
      entries := [];
    }

    method Log(e: LogEntry)
      modifies this
      ensures entries == old(entries) + [e]
    {
      entries := entries + [e];
    }
  }

  /** Logs the local file it reads, then decodes, shrinks and encodes it
      in the format the output file name `thumb` asks for. */
  method GenerateThumbnail(codec: Codec, size: Size, key: string, thumb: string, data: Bytes, logger: Logger)
    returns (image: Option<Bytes>)
    modifies logger
    ensures logger.entries == old(logger.entries) + [GeneratingFrom(key)]
    ensures image == codec(size, data, thumb)
  {
    logger.Log(GeneratingFrom(key));
    image := codec(size, data, thumb);
  }

  /** One record of the batch: the filter, then download, thumbnail and
      upload, where a failing step is logged and ends the record. */
  method HandleRecord(cfg: Config, codec: Codec, bucket: string, key: string, downloadFault: bool, uploadFault: bool,
                      s3: ObjectStore, logger: Logger)
    returns (d: Disposition)
    modifies s3, logger
    ensures var r := Process(cfg, codec, old(s3.objects), bucket, key, downloadFault, uploadFault);
            d == r.disposition && s3.objects == r.store &&
            s3.requests == old(s3.requests) + r.calls &&
            logger.entries == old(logger.entries) + r.log
  {
    if !HasImageSuffix(key) {
      logger.Log(SkipNonImage(key));
      return NotAnImage;
    }
    if IsThumbnailKey(key) {
      logger.Log(SkipThumbnail(key));
      return AlreadyThumbnail;
    }
    var thumb := ThumbKey(key);
    var data := s3.DownloadFile(bucket, key, downloadFault);
    if data.None? {
      logger.Log(ProcessingError(key, DownloadStage));
      return Abandoned(DownloadStage);
    }
    logger.Log(Downloaded(key, bucket));
    var image := GenerateThumbnail(codec, cfg.size, key, thumb, data.value, logger);
    if image.None? {
      logger.Log(ProcessingError(key, ThumbnailStage));
      return Abandoned(ThumbnailStage);
    }
    logger.Log(Generated(key));
    var ok := s3.UploadFile(cfg.destBucket, thumb, image.value, uploadFault);
    if !ok {
      logger.Log(ProcessingError(key, UploadStage));
      return Abandoned(UploadStage);
    }
    logger.Log(UploadedTo(cfg.destBucket, thumb));
    d := Stored(thumb);
  }

  /** The client and the logger hold what `run` says, after `requests0`
      and `log0`. */
  ghost predicate Mirrors(run: Run, s3: ObjectStore, logger: Logger, requests0: seq<Call>, log0: seq<LogEntry>)
    reads s3, logger
  {
    s3.objects == run.store && s3.requests == requests0 + run.calls && logger.entries == log0 + run.log
  }

  /** A state holding `prev`'s effects and then `step`'s holds the effects
      of the run that appends `step` to `prev`. */
  lemma Extend(prev: Run, step: RecordRun, next: Run, requests0: seq<Call>, log0: seq<LogEntry>,
               objects: Store, requests: seq<Call>, entries: seq<LogEntry>)
    requires next == Run(step.store, prev.log + step.log, prev.calls + step.calls,
                         prev.results + [step.disposition], Completed)
    requires objects == step.store && requests == requests0 + prev.calls + step.calls
    requires entries == log0 + prev.log + step.log
    ensures objects == next.store && requests == requests0 + next.calls && entries == log0 + next.log
  {
    assert requests0 + prev.calls + step.calls == requests0 + (prev.calls + step.calls);
    assert log0 + prev.log + step.log == log0 + (prev.log + step.log);
  }

  /** One pass of the loop over a well-formed record: the client and the
      logger go on to hold the effects of one more record of the batch. */
  method HandleNext(cfg: Config, codec: Codec, faults: Faults, records: seq<Notification>, i: nat,
                    ghost store0: Store, ghost requests0: seq<Call>, ghost log0: seq<LogEntry>,
                    s3: ObjectStore, logger: Logger)
    requires i < |records| && WellFormed(records[i])
    requires HandleRecords(cfg, codec, faults, records[..i], store0).outcome == Completed
    requires Mirrors(HandleRecords(cfg, codec, faults, records[..i], store0), s3, logger, requests0, log0)
    modifies s3, logger
    ensures HandleRecords(cfg, codec, faults, records[..i + 1], store0).outcome == Completed
    ensures Mirrors(HandleRecords(cfg, codec, faults, records[..i + 1], store0), s3, logger, requests0, log0)
  {
    var record := records[i];
    ghost var prev := HandleRecords(cfg, codec, faults, records[..i], store0);
    ghost var step := Solo(cfg, codec, faults, s3.objects, record, i);
    var d := HandleRecord(cfg, codec, record.bucket.value, record.key.value,
                          i in faults.download, i in faults.upload, s3, logger);
    HandleRecordsSnoc(cfg, codec, faults, records, i, store0);
    Extend(prev, step, HandleRecords(cfg, codec, faults, records[..i + 1], store0), requests0, log0,
           s3.objects, s3.requests, logger.entries);
  }

  /** The loop over the records, in order. A record lacking its bucket or
      key field stops the loop there; every other failure is confined to
      its record. */
  method HandleBatch(cfg: Config, codec: Codec, faults: Faults, records: seq<Notification>,
                     s3: ObjectStore, logger: Logger)
    returns (outcome: Outcome)
    modifies s3, logger
    ensures var r := HandleRecords(cfg, codec, faults, records, old(s3.objects));
            outcome == r.outcome && s3.objects == r.store &&
            s3.requests == old(s3.requests) + r.calls &&
            logger.entries == old(logger.entries) + r.log
  {
    ghost var store0 := s3.objects;
    ghost var requests0 := s3.requests;
    ghost var log0 := logger.entries;
    var i := 0;
    while i < |records|
      invariant 0 <= i <= |records|
      invariant HandleRecords(cfg, codec, faults, records[..i], store0).outcome == Completed
      invariant Mirrors(HandleRecords(cfg, codec, faults, records[..i], store0), s3, logger, requests0, log0)
    {
      var record := records[i];
      if record.bucket.None? || record.key.None? {
        HandleRecordsStopAt(cfg, codec, faults, records, i, store0);
        return MalformedRecord(i);
      }
      HandleNext(cfg, codec, faults, records, i, store0, requests0, log0, s3, logger);
      i := i + 1;
    }
    assert records[..i] == records;
    outcome := Completed;
  }

  /** The entry point: logs the start, then handles the records of the
      event, if it has a record list. */
  method LambdaHandler(cfg: Config, codec: Codec, faults: Faults, event: Event, s3: ObjectStore, logger: Logger)
    returns (outcome: Outcome)
    modifies s3, logger
    ensures var r := Handle(cfg, codec, faults, event, old(s3.objects));
            outcome == r.outcome && s3.objects == r.store &&
            s3.requests == old(s3.requests) + r.calls &&
            logger.entries == old(logger.entries) + r.log
  {
    logger.Log(Starting);
    if event.records.None? {
      return MissingRecords;
    }
    ghost var log1 := logger.entries;
    outcome := HandleBatch(cfg, codec, faults, event.records.value, s3, logger);
    assert logger.entries == old(logger.entries) + ([Starting] + (logger.entries[|log1|..]));
  }
}
