/** backend/src/controllers/dataset.controller.ts: the `rowCount` and
    `columnCount` fallbacks applied to every dataset the controller returns,
    the not-found answer of `getDataset`, and the upload handler's check for
    a missing file. */
module DatasetController {
  import opened Wrappers
  import opened Models
  import opened DatasetService

  const NoFileUploaded := "No file uploaded"
  const DatasetNotFoundMessage := "Dataset not found"
  const FailedToUpload := "Failed to upload dataset"

  /** JavaScript truthiness of an optional count: present and not zero. */
  predicate Nonzero(count: Option<int>) {
    count.Some? && count.value != 0
  }

  /** `a || b` on an optional count. */
  function CountOr(count: Option<int>, fallback: int): int {
    if Nonzero(count) then count.value else fallback
  }

  /** The transformed dataset: `rowCount` falls back to `recordCount`, then
      0; `columnCount` falls back to the number of columns. */
  function Transform(d: Dataset): Dataset {
    d.(rowCount := Some(CountOr(d.rowCount, CountOr(d.recordCount, 0))),
       columnCount := Some(CountOr(d.columnCount, |d.columns|)))
  }

  /** Both counts are always present afterwards: a nonzero stored count
      wins, then the fallback; every other field passes through. */
  lemma TransformFallbacks(d: Dataset)
    ensures var t := Transform(d);
      && t.rowCount.Some? && t.columnCount.Some?
      && (Nonzero(d.rowCount) ==> t.rowCount == d.rowCount)
      && (!Nonzero(d.rowCount) && Nonzero(d.recordCount) ==> t.rowCount == d.recordCount)
      && (!Nonzero(d.rowCount) && !Nonzero(d.recordCount) ==> t.rowCount == Some(0))
      && (Nonzero(d.columnCount) ==> t.columnCount == d.columnCount)
      && (!Nonzero(d.columnCount) ==> t.columnCount == Some(|d.columns|))
      && t.(rowCount := d.rowCount, columnCount := d.columnCount) == d
  {
  }

  /** Transforming twice changes nothing more. */
  lemma TransformIdempotent(d: Dataset)
    ensures Transform(Transform(d)) == Transform(d)
  {
    var t := Transform(d);
    if !Nonzero(d.rowCount) && !Nonzero(d.recordCount) {
      assert t.rowCount == Some(0);
    }
    if !Nonzero(d.columnCount) && |d.columns| == 0 {
      assert t.columnCount == Some(0);
    }
  }

  /** The dataset schema keeps neither `rowCount` nor `columnCount`, so a
      stored upload has lost both; the fallbacks still give back the counts
      the upload computed. */
  lemma FallbacksRecoverUploadCounts(id: string, userId: string, datasetName: string, storedPath: string,
                                     parsed: ParsedData, timeColumn: Option<string>,
                                     metricColumn: Option<string>, file: UploadedFile)
    ensures var d := NewDataset(id, userId, datasetName, storedPath, parsed, timeColumn, metricColumn, file);
      var stored := d.(rowCount := None, columnCount := None);
      && Transform(stored).rowCount == Some(|parsed.records|)
      && Transform(stored).columnCount == Some(|parsed.columns|)
      && Transform(d) == d
  {
  }

  /** `datasets.map(...)`. */
  function TransformAll(datasets: seq<Dataset>): seq<Dataset> {
    seq(|datasets|, i requires 0 <= i < |datasets| => Transform(datasets[i]))
  }

  /** The list transform is one to one and keeps the order: the i-th answer
      is the i-th dataset with its counts filled in. */
  lemma TransformAllPreservesOrder(datasets: seq<Dataset>)
    ensures var r := TransformAll(datasets);
      && |r| == |datasets|
      && (forall i :: 0 <= i < |r| ==> r[i].id == datasets[i].id && r[i].rowCount.Some?)
  {
  }

  /** `getDataset`: 404 for a dataset the user does not own, the transformed
      dataset otherwise. */
  function GetDataset(dataset: Option<Dataset>): (r: Response<Dataset>)
    ensures dataset.None? <==> r == NotFound(DatasetNotFoundMessage)
    ensures dataset.Some? ==> r.Ok? && r.body.id == dataset.value.id && r.body.columnCount.Some?
  {
    if dataset.None? then NotFound(DatasetNotFoundMessage) else Ok(Transform(dataset.value))
  }

  /** `uploadDataset`: 400 without a file, before the service is called;
      201 with the new dataset, or 500 with the service's message. */
  method UploadDataset(store: DatasetStore, id: string, userId: string, datasetName: string, timestamp: nat,
                       file: Option<UploadedFile>, timeColumn: Option<string>, metricColumn: Option<string>,
                       outcomes: UploadOutcomes)
    returns (response: Response<Dataset>)
    modifies store
    ensures file.None? <==> response == BadRequest(NoFileUploaded)
    ensures file.None? ==> unchanged(store)
    ensures response.Ok? == false && response.NotFound? == false
    ensures response.Created? ==>
      && response.body.id == id && response.body.status == Processing
      && store.datasets == old(store.datasets)[id := response.body]
      && file.Some? && outcomes.stored.Success? && outcomes.parsed.Success?
      && response.body == NewDataset(id, userId, datasetName, outcomes.stored.value, outcomes.parsed.value,
                                     timeColumn, metricColumn, file.value)
    ensures response.ServerError? ==> store.datasets == old(store.datasets) && response.message != ""
    ensures store.records == old(store.records) && store.analytics == old(store.analytics)
    ensures file.Some? ==>
      var key := StorageKey(userId, timestamp, file.value.originalName);
      && (response.Created? ==> store.files == old(store.files) + {key})
      && (response.ServerError? ==>
            store.files == if outcomes.cleanupFails then old(store.files) + (if outcomes.stored.Success? then {key} else {})
                           else old(store.files) - {key})
    ensures file.Some? ==> (response.Created? <==> UploadFailure(file.value, outcomes).None?)
    ensures file.Some? && UploadFailure(file.value, outcomes).Some? ==>
      var e := UploadFailure(file.value, outcomes).value;
      response == ServerError(if e == "" then FailedToUpload else e)
  {
    if file.None? {
      return BadRequest(NoFileUploaded);
    }
    var result := store.UploadDataset(id, userId, datasetName, timestamp, file.value,
                                      timeColumn, metricColumn, outcomes);
    if result.Success? {
      response := Created(result.value);
    } else {
      response := ServerError(if result.error == "" then FailedToUpload else result.error);
    }
  }
}
