/** What the handler guarantees across a whole batch: it writes only
    thumbnail keys in the destination bucket, each record's effect does
    not depend on what the records before it did, and its own output is
    never processed again. */
module Properties {
  import opened Keys
  import opened Pipeline

  /** `id` holds the same object (or none) in both stores. */
  predicate Untouched(s0: Store, s1: Store, id: ObjectId)
  {
    (id in s0 <==> id in s1) && (id in s0 ==> s0[id] == s1[id])
  }

  /** The only objects the handler may write: "thumb-" keys of the
      destination bucket that do not start with "thumb-thumb-". */
  predicate Writable(cfg: Config, id: ObjectId)
  {
    id.bucket == cfg.destBucket && IsThumbnailKey(id.key) &&
    !StartsWith(id.key, ThumbPrefix + ThumbPrefix)
  }

  lemma WriteKeepsOthers(cfg: Config, store: Store, dest: ObjectId, data: Bytes)
    requires Writable(cfg, dest)
    ensures store.Keys <= store[dest := data].Keys
    ensures forall id :: !Writable(cfg, id) ==> Untouched(store, store[dest := data], id)
  {
  }

  lemma ProcessWritesOnlyThumbnails(cfg: Config, codec: Codec, store: Store, bucket: string, key: string,
                                    downloadFault: bool, uploadFault: bool)
    ensures var r := Process(cfg, codec, store, bucket, key, downloadFault, uploadFault);
            store.Keys <= r.store.Keys &&
            forall id :: !Writable(cfg, id) ==> Untouched(store, r.store, id)
  {
    var r := Process(cfg, codec, store, bucket, key, downloadFault, uploadFault);
    ProcessFilter(cfg, codec, store, bucket, key, downloadFault, uploadFault);
    ProcessSteps(cfg, codec, store, bucket, key, downloadFault, uploadFault);
    if r.disposition.Stored? {
      var dest := ObjectId(cfg.destBucket, ThumbKey(key));
      ThumbKeyDoublePrefix(key);
      WriteKeepsOthers(cfg, store, dest, codec(cfg.size, store[ObjectId(bucket, key)], ThumbKey(key)).value);
    } else {
      assert r.store == store;
    }
  }

  /** Over a batch, nothing is deleted and every object outside the
      writable keys is left as it was; in particular no "thumb-thumb-"
      key is ever produced and the source objects are never changed. */
  lemma {:induction false} OnlyThumbnailsWritten(cfg: Config, codec: Codec, faults: Faults,
                                                 rs: seq<Notification>, store: Store)
    decreases |rs|
    ensures var r := HandleRecords(cfg, codec, faults, rs, store);
            store.Keys <= r.store.Keys &&
            forall id :: !Writable(cfg, id) ==> Untouched(store, r.store, id)
  {
    if rs != [] {
      var i := |rs| - 1;
      OnlyThumbnailsWritten(cfg, codec, faults, rs[..i], store);
      var prev := HandleRecords(cfg, codec, faults, rs[..i], store);
      if prev.outcome.Completed? && WellFormed(rs[i]) {
        ProcessWritesOnlyThumbnails(cfg, codec, prev.store, rs[i].bucket.value, rs[i].key.value,
                                    i in faults.download, i in faults.upload);
      }
    }
  }

  /** A record reads the store only at its own source object, and only
      when it passes the filter. */
  lemma ProcessReadsOnlySource(cfg: Config, codec: Codec, s1: Store, s2: Store, bucket: string, key: string,
                               downloadFault: bool, uploadFault: bool)
    requires Eligible(key) ==> Untouched(s1, s2, ObjectId(bucket, key))
    ensures var r1 := Process(cfg, codec, s1, bucket, key, downloadFault, uploadFault);
            var r2 := Process(cfg, codec, s2, bucket, key, downloadFault, uploadFault);
            r1.log == r2.log && r1.calls == r2.calls && r1.disposition == r2.disposition
  {
    if Eligible(key) {
      assert Fetch(s1, ObjectId(bucket, key), downloadFault) == Fetch(s2, ObjectId(bucket, key), downloadFault);
    }
  }

  /** The log of a batch of well-formed records if each were handled on
      its own against `store`. */
  function IsolatedLog(cfg: Config, codec: Codec, faults: Faults, rs: seq<Notification>, store: Store): seq<LogEntry>
    requires forall j :: 0 <= j < |rs| ==> WellFormed(rs[j])
    decreases |rs|
  {
    if rs == [] then []
    else IsolatedLog(cfg, codec, faults, rs[..|rs| - 1], store) + Solo(cfg, codec, faults, store, rs[|rs| - 1], |rs| - 1).log
  }

  /** The storage calls of a batch if each record were handled on its own. */
  function IsolatedCalls(cfg: Config, codec: Codec, faults: Faults, rs: seq<Notification>, store: Store): seq<Call>
    requires forall j :: 0 <= j < |rs| ==> WellFormed(rs[j])
    decreases |rs|
  {
    if rs == [] then []
    else IsolatedCalls(cfg, codec, faults, rs[..|rs| - 1], store) + Solo(cfg, codec, faults, store, rs[|rs| - 1], |rs| - 1).calls
  }

  /** The dispositions of a batch if each record were handled on its own. */
  function IsolatedResults(cfg: Config, codec: Codec, faults: Faults, rs: seq<Notification>, store: Store): seq<Disposition>
    requires forall j :: 0 <= j < |rs| ==> WellFormed(rs[j])
    decreases |rs|
  {
    if rs == [] then []
    else IsolatedResults(cfg, codec, faults, rs[..|rs| - 1], store) + [Solo(cfg, codec, faults, store, rs[|rs| - 1], |rs| - 1).disposition]
  }

  lemma {:induction false} IsolatedResultsLength(cfg: Config, codec: Codec, faults: Faults, rs: seq<Notification>, store: Store)
    requires forall j :: 0 <= j < |rs| ==> WellFormed(rs[j])
    decreases |rs|
    ensures |IsolatedResults(cfg, codec, faults, rs, store)| == |rs|
  {
    if rs != [] {
      IsolatedResultsLength(cfg, codec, faults, rs[..|rs| - 1], store);
    }
  }

  /** Dropping the last record keeps the isolated dispositions before it. */
  lemma IsolatedResultsPrefix(cfg: Config, codec: Codec, faults: Faults, rs: seq<Notification>, store: Store, j: nat)
    requires forall j :: 0 <= j < |rs| ==> WellFormed(rs[j])
    requires j < |rs| - 1
    ensures |IsolatedResults(cfg, codec, faults, rs[..|rs| - 1], store)| == |rs| - 1
    ensures IsolatedResults(cfg, codec, faults, rs, store)[j] == IsolatedResults(cfg, codec, faults, rs[..|rs| - 1], store)[j]
  {
    IsolatedResultsLength(cfg, codec, faults, rs[..|rs| - 1], store);
  }

  lemma {:induction false} IsolatedResultAt(cfg: Config, codec: Codec, faults: Faults, rs: seq<Notification>, store: Store, j: nat)
    requires forall j :: 0 <= j < |rs| ==> WellFormed(rs[j])
    requires j < |rs|
    decreases |rs|
    ensures |IsolatedResults(cfg, codec, faults, rs, store)| == |rs|
    ensures IsolatedResults(cfg, codec, faults, rs, store)[j] == Solo(cfg, codec, faults, store, rs[j], j).disposition
  {
    var i := |rs| - 1;
    IsolatedResultsLength(cfg, codec, faults, rs, store);
    if j < i {
      IsolatedResultsPrefix(cfg, codec, faults, rs, store, j);
      IsolatedResultAt(cfg, codec, faults, rs[..i], store, j);
      assert rs[..i][j] == rs[j];
    } else {
      IsolatedResultsLength(cfg, codec, faults, rs[..i], store);
    }
  }

  /** The last record of a batch whose earlier records all completed
      contributes exactly its isolated effects. */
  lemma IsolationStep(cfg: Config, codec: Codec, faults: Faults, rs: seq<Notification>, store: Store)
    requires |rs| > 0 && WellFormed(rs[|rs| - 1])
    requires HandleRecords(cfg, codec, faults, rs[..|rs| - 1], store).outcome.Completed?
    ensures var prev := HandleRecords(cfg, codec, faults, rs[..|rs| - 1], store);
            var r := HandleRecords(cfg, codec, faults, rs, store);
            var solo := Solo(cfg, codec, faults, store, rs[|rs| - 1], |rs| - 1);
            r.log == prev.log + solo.log && r.calls == prev.calls + solo.calls &&
            r.results == prev.results + [solo.disposition]
  {
    var i := |rs| - 1;
    var pre := rs[..i];
    OnlyThumbnailsWritten(cfg, codec, faults, pre, store);
    var prev := HandleRecords(cfg, codec, faults, pre, store);
    var key := rs[i].key.value;
    if Eligible(key) {
      assert !Writable(cfg, ObjectId(rs[i].bucket.value, key));
    }
    ProcessReadsOnlySource(cfg, codec, prev.store, store, rs[i].bucket.value, key,
                           i in faults.download, i in faults.upload);
  }

  /** Failure isolation: every record visited before the batch stops has
      the disposition, log entries and storage calls it would have alone;
      a failure (or a success) of an earlier record changes nothing for
      the later ones, and the entries come in the order of the records. */
  lemma {:induction false} Isolation(cfg: Config, codec: Codec, faults: Faults, rs: seq<Notification>, store: Store)
    decreases |rs|
    ensures var r := HandleRecords(cfg, codec, faults, rs, store);
            r.log == IsolatedLog(cfg, codec, faults, rs[..|r.results|], store) &&
            r.calls == IsolatedCalls(cfg, codec, faults, rs[..|r.results|], store) &&
            r.results == IsolatedResults(cfg, codec, faults, rs[..|r.results|], store)
  {
    if rs == [] {
      return;
    }
    var i := |rs| - 1;
    var pre := rs[..i];
    Isolation(cfg, codec, faults, pre, store);
    var prev := HandleRecords(cfg, codec, faults, pre, store);
    var r := HandleRecords(cfg, codec, faults, rs, store);
    var k := |prev.results|;
    assert pre[..k] == rs[..k];
    if prev.outcome.Completed? && WellFormed(rs[i]) {
      IsolationStep(cfg, codec, faults, rs, store);
      assert rs[..|rs|] == rs;
      assert rs[..|rs|][..i] == pre;
    } else {
      assert r.results == prev.results && r.log == prev.log && r.calls == prev.calls;
    }
  }

  /** A visited record is processed exactly when its key passes both
      checks; otherwise it is skipped, as a non-image when the suffix
      check fails (whatever its prefix) and as a thumbnail otherwise. */
  lemma ProcessedIff(cfg: Config, codec: Codec, faults: Faults, rs: seq<Notification>, store: Store)
    ensures var r := HandleRecords(cfg, codec, faults, rs, store);
            forall j :: 0 <= j < |r.results| ==>
              rs[j].key.Some? &&
              (Attempted(r.results[j]) <==> Eligible(rs[j].key.value)) &&
              (r.results[j] == NotAnImage <==> !HasImageSuffix(rs[j].key.value)) &&
              (r.results[j] == AlreadyThumbnail <==> HasImageSuffix(rs[j].key.value) && IsThumbnailKey(rs[j].key.value))
  {
    Isolation(cfg, codec, faults, rs, store);
    var r := HandleRecords(cfg, codec, faults, rs, store);
    var visited := rs[..|r.results|];
    forall j | 0 <= j < |r.results|
      ensures r.results[j] == Solo(cfg, codec, faults, store, rs[j], j).disposition
    {
      IsolatedResultAt(cfg, codec, faults, visited, store, j);
      assert visited[j] == rs[j];
    }
    forall j | 0 <= j < |r.results|
      ensures var d := Solo(cfg, codec, faults, store, rs[j], j).disposition;
              var key := rs[j].key.value;
              (Attempted(d) <==> Eligible(key)) &&
              (d == NotAnImage <==> !HasImageSuffix(key)) &&
              (d == AlreadyThumbnail <==> HasImageSuffix(key) && IsThumbnailKey(key))
    {
      ProcessFilter(cfg, codec, store, rs[j].bucket.value, rs[j].key.value, j in faults.download, j in faults.upload);
    }
  }

  /** Every thumbnail is stored under "thumb-" + its source key, which never
      starts with "thumb-thumb-". */
  lemma StoredUnderThumbKey(cfg: Config, codec: Codec, faults: Faults, rs: seq<Notification>, store: Store)
    ensures var r := HandleRecords(cfg, codec, faults, rs, store);
            forall j :: 0 <= j < |r.results| && r.results[j].Stored? ==>
              rs[j].key.Some? &&
              r.results[j].destKey == ThumbKey(rs[j].key.value) &&
              !StartsWith(r.results[j].destKey, ThumbPrefix + ThumbPrefix)
  {
    Isolation(cfg, codec, faults, rs, store);
    var r := HandleRecords(cfg, codec, faults, rs, store);
    var visited := rs[..|r.results|];
    forall j | 0 <= j < |r.results| && r.results[j].Stored?
      ensures r.results[j].destKey == ThumbKey(rs[j].key.value)
      ensures !StartsWith(r.results[j].destKey, ThumbPrefix + ThumbPrefix)
    {
      IsolatedResultAt(cfg, codec, faults, visited, store, j);
      assert visited[j] == rs[j];
      var key := rs[j].key.value;
      ProcessFilter(cfg, codec, store, rs[j].bucket.value, key, j in faults.download, j in faults.upload);
      ProcessSteps(cfg, codec, store, rs[j].bucket.value, key, j in faults.download, j in faults.upload);
      ThumbKeyDoublePrefix(key);
    }
  }

  /** Every download reads an eligible key and every upload writes a
      writable key of the destination bucket, never the source bucket
      unless the two are the same. */
  lemma {:induction false} CallTargets(cfg: Config, codec: Codec, faults: Faults, rs: seq<Notification>, store: Store)
    decreases |rs|
    ensures var r := HandleRecords(cfg, codec, faults, rs, store);
            forall c :: c in r.calls ==>
              (c.GetObject? ==> Eligible(c.id.key)) && (c.PutObject? ==> Writable(cfg, c.id))
  {
    if rs != [] {
      var i := |rs| - 1;
      CallTargets(cfg, codec, faults, rs[..i], store);
      var prev := HandleRecords(cfg, codec, faults, rs[..i], store);
      if prev.outcome.Completed? && WellFormed(rs[i]) {
        ThumbKeyDoublePrefix(rs[i].key.value);
      }
    }
  }

  /** A thumbnail's key fed back to the handler as a new record in the
      destination bucket is skipped as an existing thumbnail: no call, no
      change. */
  lemma OutputNotReprocessed(cfg: Config, codec: Codec, store: Store, key: string,
                             downloadFault: bool, uploadFault: bool)
    requires HasImageSuffix(key)
    ensures var r := Process(cfg, codec, store, cfg.destBucket, ThumbKey(key), downloadFault, uploadFault);
            r.disposition == AlreadyThumbnail && r.store == store && r.calls == [] &&
            r.log == [SkipThumbnail(ThumbKey(key))]
  {
    ThumbKeyKeepsSuffix(key);
  }

  /** Handling the same record twice without faults gives the same
      thumbnail: the second pass leaves the store as the first left it. */
  lemma ReprocessIdempotent(cfg: Config, codec: Codec, store: Store, bucket: string, key: string)
    ensures var r1 := Process(cfg, codec, store, bucket, key, false, false);
            var r2 := Process(cfg, codec, r1.store, bucket, key, false, false);
            r2.store == r1.store && r2.disposition == r1.disposition && r2.log == r1.log
  {
    var r1 := Process(cfg, codec, store, bucket, key, false, false);
    if Eligible(key) {
      assert ObjectId(bucket, key) != ObjectId(cfg.destBucket, ThumbKey(key));
      ProcessReadsOnlySource(cfg, codec, store, r1.store, bucket, key, false, false);
    }
  }

  /** The output file name picks the thumbnail's format. "weirdjpg" passes
      the filter, but the name of its thumbnail, "thumb-weirdjpg", has no
      extension: a codec that cannot write such a name abandons the record
      at the thumbnail step, after the download and before any upload. */
  lemma NoExtensionAbandoned(cfg: Config, codec: Codec, store: Store, bucket: string)
    requires ObjectId(bucket, "weirdjpg") in store
    requires codec(cfg.size, store[ObjectId(bucket, "weirdjpg")], "thumb-weirdjpg") == None
    ensures Process(cfg, codec, store, bucket, "weirdjpg", false, false) ==
            RecordRun(store,
                      [Downloaded("weirdjpg", bucket), GeneratingFrom("weirdjpg"), ProcessingError("weirdjpg", ThumbnailStage)],
                      [GetObject(ObjectId(bucket, "weirdjpg"))], Abandoned(ThumbnailStage))
  {
    WeirdKeyEligible();
  }

  lemma WeirdKeyEligible()
    ensures Eligible("weirdjpg") && ThumbKey("weirdjpg") == "thumb-weirdjpg"
  {
    assert Lower("weirdjpg")[5..] == "jpg";
    assert "weirdjpg"[0] != ThumbPrefix[0];
  }

  lemma PhotoKeyEligible()
    ensures Eligible("photo.JPG")
  {
    assert Lower("photo.JPG")[6..] == "jpg";
    assert "photo.JPG"[0] != ThumbPrefix[0];
  }

  lemma OldThumbnailKey()
    ensures HasImageSuffix("thumb-old.png") && IsThumbnailKey("thumb-old.png")
  {
    assert Lower("thumb-old.png")[10..] == "png";
    assert "thumb-old.png"[..6] == ThumbPrefix;
  }

  lemma PhotoStep(cfg: Config, codec: Codec, store: Store, bucket: string, image: Bytes)
    requires ObjectId(bucket, "photo.JPG") in store
    requires codec(cfg.size, store[ObjectId(bucket, "photo.JPG")], "thumb-photo.JPG") == Some(image)
    ensures Process(cfg, codec, store, bucket, "photo.JPG", false, false) ==
            RecordRun(store[ObjectId(cfg.destBucket, "thumb-photo.JPG") := image],
                      [Downloaded("photo.JPG", bucket), GeneratingFrom("photo.JPG"), Generated("photo.JPG"),
                       UploadedTo(cfg.destBucket, "thumb-photo.JPG")],
                      [GetObject(ObjectId(bucket, "photo.JPG")), PutObject(ObjectId(cfg.destBucket, "thumb-photo.JPG"))],
                      Stored("thumb-photo.JPG"))
  {
    PhotoKeyEligible();
    assert ThumbKey("photo.JPG") == "thumb-photo.JPG";
  }

  lemma SkipThumbnailStep(cfg: Config, codec: Codec, store: Store, bucket: string)
    ensures Process(cfg, codec, store, bucket, "thumb-old.png", false, false) ==
            RecordRun(store, [SkipThumbnail("thumb-old.png")], [], AlreadyThumbnail)
  {
    OldThumbnailKey();
  }

  lemma SkipNonImageStep(cfg: Config, codec: Codec, store: Store, bucket: string)
    ensures Process(cfg, codec, store, bucket, "doc.pdf", false, false) ==
            RecordRun(store, [SkipNonImage("doc.pdf")], [], NotAnImage)
  {
    SuffixExamples();
  }

  /** The batch of the scenario below. */
  function ScenarioBatch(bucket: string): seq<Notification>
  {
    [Notification(Some(bucket), Some("photo.JPG")),
     Notification(Some(bucket), Some("thumb-old.png")),
     Notification(Some(bucket), Some("doc.pdf"))]
  }

  lemma ScenarioFirst(cfg: Config, codec: Codec, store: Store, bucket: string, image: Bytes)
    requires ObjectId(bucket, "photo.JPG") in store
    requires codec(cfg.size, store[ObjectId(bucket, "photo.JPG")], "thumb-photo.JPG") == Some(image)
    ensures HandleRecords(cfg, codec, Faults({}, {}), ScenarioBatch(bucket)[..1], store) ==
            Run(store[ObjectId(cfg.destBucket, "thumb-photo.JPG") := image],
                [Downloaded("photo.JPG", bucket), GeneratingFrom("photo.JPG"), Generated("photo.JPG"),
                 UploadedTo(cfg.destBucket, "thumb-photo.JPG")],
                [GetObject(ObjectId(bucket, "photo.JPG")), PutObject(ObjectId(cfg.destBucket, "thumb-photo.JPG"))],
                [Stored("thumb-photo.JPG")], Completed)
  {
    var rs := ScenarioBatch(bucket);
    assert rs[..0] == [];
    PhotoStep(cfg, codec, store, bucket, image);
    HandleRecordsSnoc(cfg, codec, Faults({}, {}), rs, 0, store);
  }

  lemma ScenarioSecond(cfg: Config, codec: Codec, store: Store, bucket: string, image: Bytes)
    requires ObjectId(bucket, "photo.JPG") in store
    requires codec(cfg.size, store[ObjectId(bucket, "photo.JPG")], "thumb-photo.JPG") == Some(image)
    ensures HandleRecords(cfg, codec, Faults({}, {}), ScenarioBatch(bucket)[..2], store) ==
            Run(store[ObjectId(cfg.destBucket, "thumb-photo.JPG") := image],
                [Downloaded("photo.JPG", bucket), GeneratingFrom("photo.JPG"), Generated("photo.JPG"),
                 UploadedTo(cfg.destBucket, "thumb-photo.JPG"), SkipThumbnail("thumb-old.png")],
                [GetObject(ObjectId(bucket, "photo.JPG")), PutObject(ObjectId(cfg.destBucket, "thumb-photo.JPG"))],
                [Stored("thumb-photo.JPG"), AlreadyThumbnail], Completed)
  {
    ScenarioFirst(cfg, codec, store, bucket, image);
    var h1 := HandleRecords(cfg, codec, Faults({}, {}), ScenarioBatch(bucket)[..1], store);
    SkipThumbnailStep(cfg, codec, h1.store, bucket);
    HandleRecordsSnoc(cfg, codec, Faults({}, {}), ScenarioBatch(bucket), 1, store);
  }

  /** A batch of a valid image, an existing thumbnail and a non-image:
      one upload, two skip entries, no error, in input order. */
  lemma ThreeRecordScenario(cfg: Config, codec: Codec, store: Store, bucket: string, image: Bytes)
    requires ObjectId(bucket, "photo.JPG") in store
    requires codec(cfg.size, store[ObjectId(bucket, "photo.JPG")], "thumb-photo.JPG") == Some(image)
    ensures HandleRecords(cfg, codec, Faults({}, {}), ScenarioBatch(bucket), store) ==
            Run(store[ObjectId(cfg.destBucket, "thumb-photo.JPG") := image],
                [Downloaded("photo.JPG", bucket), GeneratingFrom("photo.JPG"), Generated("photo.JPG"),
                 UploadedTo(cfg.destBucket, "thumb-photo.JPG"), SkipThumbnail("thumb-old.png"), SkipNonImage("doc.pdf")],
                [GetObject(ObjectId(bucket, "photo.JPG")), PutObject(ObjectId(cfg.destBucket, "thumb-photo.JPG"))],
                [Stored("thumb-photo.JPG"), AlreadyThumbnail, NotAnImage], Completed)
  {
    var rs := ScenarioBatch(bucket);
    ScenarioSecond(cfg, codec, store, bucket, image);
    var h2 := HandleRecords(cfg, codec, Faults({}, {}), rs[..2], store);
    SkipNonImageStep(cfg, codec, h2.store, bucket);
    HandleRecordsSnoc(cfg, codec, Faults({}, {}), rs, 2, store);
    assert rs[..3] == rs;
  }
}
