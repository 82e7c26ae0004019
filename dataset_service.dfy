/** backend/src/services/dataset.service.ts: the storage key of an upload and
    its recovery at delete time, the CSV/JSON dispatch, the dataset document
    an upload creates, the record documents processing inserts, and the
    upload, delete and reprocess flows over a store of datasets, records,
    stored analytics, stored files and the analytics cache. Database, object
    storage and parser calls are replaced by their outcomes, given as
    parameters. */
module DatasetService {
  import opened Wrappers
  import opened Models
  import opened Text
  import opened CacheService
  import opened AnalyticsRun

  const LocalPrefix := "local://"
  const UnsupportedFormat := "Unsupported file format. Please upload CSV or JSON files."

  // ---------------------------------------------------------------------
  // Storage keys

  /** `datasets/<userId>/<timestamp>-<originalname>`. */
  function StorageKey(userId: string, timestamp: nat, originalName: string): string {
    "datasets/" + userId + "/" + NatToString(timestamp) + "-" + originalName
  }

  /** `slice(-3)`: the last three elements, or all of them when there are fewer. */
  function LastThree<T>(parts: seq<T>): (r: seq<T>)
    ensures |r| == if |parts| < 3 then |parts| else 3
    ensures r <= parts || |parts| >= 3
  {
    if |parts| <= 3 then parts else parts[|parts| - 3..]
  }

  /** The key handed to the storage delete for a stored file path: a local
      path loses its `local://` prefix, any other path keeps its last three
      `/`-separated segments. */
  function DeleteKey(path: string): string {
    if LocalPrefix <= path then path[|LocalPrefix|..]
    else Join(LastThree(Split(path, '/')), '/')
  }

  /** The key is three slash-separated segments. */
  lemma StorageKeySegments(userId: string, timestamp: nat, originalName: string)
    requires '/' !in userId && '/' !in originalName
    ensures Split(StorageKey(userId, timestamp, originalName), '/')
            == ["datasets", userId, NatToString(timestamp) + "-" + originalName]
  {
    var last := NatToString(timestamp) + "-" + originalName;
    var parts := ["datasets", userId, last];
    assert '/' !in last by {
      assert forall c :: c in last ==> c in NatToString(timestamp) || c == '-' || c in originalName;
    }
    assert Join(parts[2..], '/') == last;
    assert Join(parts[1..], '/') == userId + "/" + last;
    assert Join(parts, '/') == StorageKey(userId, timestamp, originalName);
    SplitJoin(parts, '/');
  }

  /** A file kept in local storage is deleted under the key it was stored by. */
  lemma DeleteKeyLocal(key: string)
    ensures DeleteKey(LocalPrefix + key) == key
  {
    assert LocalPrefix <= LocalPrefix + key;
  }

  /** A file in object storage, at `<location>/<key>`, is deleted under the
      key it was uploaded by, provided neither the user id nor the file name
      contains a slash. */
  lemma DeleteKeyRoundTrip(location: string, userId: string, timestamp: nat, originalName: string)
    requires '/' !in userId && '/' !in originalName
    requires !(LocalPrefix <= location + "/" + StorageKey(userId, timestamp, originalName))
    ensures DeleteKey(location + "/" + StorageKey(userId, timestamp, originalName))
            == StorageKey(userId, timestamp, originalName)
  {
    var key := StorageKey(userId, timestamp, originalName);
    var parts := ["datasets", userId, NatToString(timestamp) + "-" + originalName];
    StorageKeySegments(userId, timestamp, originalName);
    SplitAround(location, key, '/');
    var all := Split(location, '/') + parts;
    assert LastThree(all) == parts;
    JoinSplit(key, '/');
  }

  // ---------------------------------------------------------------------
  // Format dispatch

  datatype Format = Csv | Json

  /** The upload's format: CSV when the mimetype or the (case-sensitive)
      name says so, checked first; otherwise JSON likewise; otherwise an
      error. */
  function DetectFormat(mimetype: string, originalName: string): (r: Result<Format, string>)
    ensures r.Failure? ==> r.error == UnsupportedFormat
  {
    if mimetype == "text/csv" || EndsWith(originalName, ".csv") then Success(Csv)
    else if mimetype == "application/json" || EndsWith(originalName, ".json") then Success(Json)
    else Failure(UnsupportedFormat)
  }

  /** The dispatch accepts exactly the uploads that name CSV or JSON, and a
      CSV mimetype wins over a JSON-looking name. */
  lemma DetectFormatAccepts(mimetype: string, originalName: string)
    ensures DetectFormat(mimetype, originalName).Success?
        <==> mimetype in {"text/csv", "application/json"}
             || EndsWith(originalName, ".csv") || EndsWith(originalName, ".json")
    ensures mimetype == "text/csv" ==> DetectFormat(mimetype, originalName) == Success(Csv)
  {
  }

  // ---------------------------------------------------------------------
  // The dataset document and the record documents

  /** What a parser yields: the header and the rows. */
  datatype ParsedData = ParsedData(columns: seq<string>, records: seq<map<string, FieldValue>>)

  /** The uploaded file as the upload middleware hands it over. */
  datatype UploadedFile = UploadedFile(originalName: string, mimetype: string, size: nat)

  /** The dataset document an upload saves. */
  function NewDataset(id: string, userId: string, datasetName: string, storedPath: string,
                      parsed: ParsedData, timeColumn: Option<string>,
                      metricColumn: Option<string>, file: UploadedFile): (d: Dataset)
    ensures d.id == id && d.userId == userId && d.s3FilePath == storedPath
    ensures d.status == Processing && d.columns == parsed.columns
    ensures d.recordCount == d.rowCount == Some(|parsed.records|)
    ensures d.columnCount == Some(|parsed.columns|)
  {
    Dataset(id, userId, datasetName, storedPath, parsed.columns, Processing,
            timeColumn, metricColumn, Some(|parsed.records|), Some(|parsed.records|),
            Some(|parsed.columns|), Some(file.size))
  }

  /** A stored row, tagged with its dataset. */
  datatype RecordDocument = RecordDocument(datasetId: string, data: map<string, FieldValue>,
                                           timestamp: Option<Date>)

  /** The timestamp of a row: the parsed time-column value, when the time
      column is named (a non-empty name), the row holds a truthy value there,
      and `parseDate` gives a valid date for it. */
  function RowTimestamp(data: map<string, FieldValue>, timeColumn: Option<string>,
                        parseDate: FieldValue -> Option<Date>): Option<Date>
  {
    if timeColumn.Some? && timeColumn.value != "" && timeColumn.value in data
       && Truthy(data[timeColumn.value])
    then parseDate(data[timeColumn.value])
    else None
  }

  /** `records.map(...)`: one document per row. */
  function RecordDocuments(datasetId: string, rows: seq<map<string, FieldValue>>,
                           timeColumn: Option<string>,
                           parseDate: FieldValue -> Option<Date>): seq<RecordDocument>
  {
    seq(|rows|, i requires 0 <= i < |rows| =>
      RecordDocument(datasetId, rows[i], RowTimestamp(rows[i], timeColumn, parseDate)))
  }

  /** Exactly one document per row, in row order, each tagged with the
      dataset and carrying the row unchanged; a document has a timestamp only
      when its row has a truthy value in a named time column. */
  lemma RecordDocumentsMirrorRows(datasetId: string, rows: seq<map<string, FieldValue>>,
                                  timeColumn: Option<string>,
                                  parseDate: FieldValue -> Option<Date>)
    ensures var docs := RecordDocuments(datasetId, rows, timeColumn, parseDate);
      && |docs| == |rows|
      && (forall i :: 0 <= i < |rows| ==> docs[i].datasetId == datasetId && docs[i].data == rows[i])
      && (forall i :: 0 <= i < |rows| && docs[i].timestamp.Some? ==>
            && timeColumn.Some? && timeColumn.value in rows[i]
            && Truthy(rows[i][timeColumn.value])
            && docs[i].timestamp == parseDate(rows[i][timeColumn.value]))
  {
  }

  /** An empty time-column name is falsy: no row gets a timestamp. */
  lemma EmptyTimeColumnGivesNoTimestamps(datasetId: string, rows: seq<map<string, FieldValue>>,
                                         parseDate: FieldValue -> Option<Date>)
    ensures forall doc :: doc in RecordDocuments(datasetId, rows, Some(""), parseDate) ==> doc.timestamp == None
  {
  }

  /** The documents of all datasets but one, in their stored order. */
  function RecordsOtherThan(records: seq<RecordDocument>, datasetId: string): seq<RecordDocument> {
    if records == [] then []
    else RecordsOtherThan(records[..|records| - 1], datasetId)
         + (if records[|records| - 1].datasetId == datasetId then [] else [records[|records| - 1]])
  }

  /** `deleteMany({ datasetId })` removes exactly the dataset's documents. */
  lemma {:induction false} RecordsOtherThanKeeps(records: seq<RecordDocument>, datasetId: string)
    ensures forall doc :: doc in RecordsOtherThan(records, datasetId)
                          <==> doc in records && doc.datasetId != datasetId
  {
    if records != [] {
      var n := |records| - 1;
      RecordsOtherThanKeeps(records[..n], datasetId);
      assert records == records[..n] + [records[n]];
    }
  }

  lemma {:induction false} RecordsOtherThanConcat(a: seq<RecordDocument>, b: seq<RecordDocument>, datasetId: string)
    ensures RecordsOtherThan(a + b, datasetId) == RecordsOtherThan(a, datasetId) + RecordsOtherThan(b, datasetId)
  {
    if b == [] {
      assert a + b == a;
    } else {
      var n := |b| - 1;
      assert (a + b)[..|a + b| - 1] == a + b[..n];
      RecordsOtherThanConcat(a, b[..n], datasetId);
    }
  }

  /** Nothing is left of documents that all belong to the dataset. */
  lemma {:induction false} RecordsOtherThanOwn(docs: seq<RecordDocument>, datasetId: string)
    requires forall i :: 0 <= i < |docs| ==> docs[i].datasetId == datasetId
    ensures RecordsOtherThan(docs, datasetId) == []
  {
    if docs != [] {
      RecordsOtherThanOwn(docs[..|docs| - 1], datasetId);
    }
  }

  /** Deleting a dataset's records undoes processing them: the documents a
      processing run inserted are all removed and no other document is. */
  lemma {:induction false} DeleteUndoesProcessing(records: seq<RecordDocument>, datasetId: string,
                                                  rows: seq<map<string, FieldValue>>,
                                                  timeColumn: Option<string>,
                                                  parseDate: FieldValue -> Option<Date>)
    ensures RecordsOtherThan(records + RecordDocuments(datasetId, rows, timeColumn, parseDate), datasetId)
            == RecordsOtherThan(records, datasetId)
  {
    var docs := RecordDocuments(datasetId, rows, timeColumn, parseDate);
    RecordsOtherThanConcat(records, docs, datasetId);
    RecordsOtherThanOwn(docs, datasetId);
  }

  /** `findByIdAndUpdate(id, { status })`: nothing happens to a missing id. */
  function WithStatus(datasets: map<string, Dataset>, datasetId: string, status: DatasetStatus): (r: map<string, Dataset>)
    ensures r.Keys == datasets.Keys
    ensures forall k :: k in r && k != datasetId ==> r[k] == datasets[k]
    ensures datasetId in r ==> r[datasetId] == datasets[datasetId].(status := status)
  {
    if datasetId in datasets then datasets[datasetId := datasets[datasetId].(status := status)]
    else datasets
  }

  // ---------------------------------------------------------------------
  // The service over its stores

  /** The outcomes of the calls an upload makes: the storage upload (the
      stored path or an error), the parser, the save, and the clean-up
      delete (whose failure is swallowed). */
  datatype UploadOutcomes = UploadOutcomes(stored: Result<string, string>, parsed: Result<ParsedData, string>,
                                           saveError: Option<string>, cleanupFails: bool)

  /** The error an upload ends with, if any: the first step that fails among
      storing the file, recognising its format, parsing it and saving the
      dataset document. */
  function UploadFailure(file: UploadedFile, outcomes: UploadOutcomes): Option<string> {
    if outcomes.stored.Failure? then Some(outcomes.stored.error)
    else if DetectFormat(file.mimetype, file.originalName).Failure? then Some(UnsupportedFormat)
    else if outcomes.parsed.Failure? then Some(outcomes.parsed.error)
    else outcomes.saveError
  }

  class DatasetStore {
    /** Dataset documents by id. */
    var datasets: map<string, Dataset>
    /** The record collection. */
    var records: seq<RecordDocument>
    /** The datasets that have stored analytics documents. */
    var analytics: set<string>
    /** The keys of the files in storage. */
    var files: set<string>
    const cache: Cache<Analytics>

    constructor(cache: Cache<Analytics>)
      ensures datasets == map[] && records == [] && analytics == {} && files == {}
      ensures this.cache == cache
    {
      datasets := map[];
      records := [];
      analytics := {};
      files := {};
      this.cache := cache;
    }

    /** `getDataset`: the dataset with this id, if the user owns it. */
    function Owned(datasetId: string, userId: string): (r: Option<Dataset>)
      reads this
      ensures r.Some? <==> datasetId in datasets && datasets[datasetId].userId == userId
      ensures r.Some? ==> r.value == datasets[datasetId]
    {
      if datasetId in datasets && datasets[datasetId].userId == userId
      then Some(datasets[datasetId]) else None
    }

    /** `uploadDataset`: store the file under its key, dispatch on the format,
        parse, save a new dataset document. Any failure deletes the key again
        (unless that delete fails too) and is passed on. Record processing
        is started in the background and is the separate `ProcessRecords`. */
    method UploadDataset(id: string, userId: string, datasetName: string, timestamp: nat,
                         file: UploadedFile, timeColumn: Option<string>, metricColumn: Option<string>,
                         outcomes: UploadOutcomes)
      returns (r: Result<Dataset, string>)
      modifies this
      ensures records == old(records) && analytics == old(analytics)
      ensures r.Failure? <==> UploadFailure(file, outcomes).Some?
      ensures r.Failure? ==> r.error == UploadFailure(file, outcomes).value
      ensures var key := StorageKey(userId, timestamp, file.originalName);
        var format := DetectFormat(file.mimetype, file.originalName);
        && (outcomes.stored.Failure? ==> r == Failure(outcomes.stored.error))
        && (outcomes.stored.Success? && format.Failure? ==> r == Failure(UnsupportedFormat))
        && (outcomes.stored.Success? && format.Success? && outcomes.parsed.Failure? ==>
              r == Failure(outcomes.parsed.error))
        && (outcomes.stored.Success? && format.Success? && outcomes.parsed.Success? && outcomes.saveError.Some? ==>
              r == Failure(outcomes.saveError.value))
        && (r.Success? <==> outcomes.stored.Success? && format.Success? && outcomes.parsed.Success?
                            && outcomes.saveError.None?)
        && (r.Success? ==>
              && r.value == NewDataset(id, userId, datasetName, outcomes.stored.value, outcomes.parsed.value,
                                       timeColumn, metricColumn, file)
              && datasets == old(datasets)[id := r.value]
              && files == old(files) + {key})
        && (r.Failure? ==>
              && datasets == old(datasets)
              && files == if outcomes.cleanupFails then old(files) + (if outcomes.stored.Success? then {key} else {})
                          else old(files) - {key})
    {
      var key := StorageKey(userId, timestamp, file.originalName);
      var error: string;
      if outcomes.stored.Failure? {
        error := outcomes.stored.error;
      } else {
        files := files + {key};
        var format := DetectFormat(file.mimetype, file.originalName);
        if format.Failure? {
          error := format.error;
        } else if outcomes.parsed.Failure? {
          error := outcomes.parsed.error;
        } else if outcomes.saveError.Some? {
          error := outcomes.saveError.value;
        } else {
          var dataset := NewDataset(id, userId, datasetName, outcomes.stored.value, outcomes.parsed.value,
                                    timeColumn, metricColumn, file);
          datasets := datasets[id := dataset];
          return Success(dataset);
        }
      }
      if !outcomes.cleanupFails {
        files := files - {key};
      }
      r := Failure(error);
    }

    /** `processRecords`: insert one document per row and mark the dataset
        processed; when the insert fails, mark it as failed instead. */
    method ProcessRecords(datasetId: string, rows: seq<map<string, FieldValue>>,
                          timeColumn: Option<string>, parseDate: FieldValue -> Option<Date>,
                          insertFails: bool)
      modifies this
      ensures analytics == old(analytics) && files == old(files)
      ensures insertFails ==> records == old(records) && datasets == WithStatus(old(datasets), datasetId, Error)
      ensures !insertFails ==>
        && records == old(records) + RecordDocuments(datasetId, rows, timeColumn, parseDate)
        && datasets == WithStatus(old(datasets), datasetId, Processed)
    {
      if insertFails {
        datasets := WithStatus(datasets, datasetId, Error);
      } else {
        records := records + RecordDocuments(datasetId, rows, timeColumn, parseDate);
        datasets := WithStatus(datasets, datasetId, Processed);
      }
    }

    /** `deleteDataset`: for an owned dataset, delete its file (a failing
        delete is swallowed), its records, its stored analytics, the dataset
        itself and its cached analytics. */
    method DeleteDataset(datasetId: string, userId: string, storageFails: bool, cacheFails: bool)
      returns (r: Result<(), string>)
      modifies this, cache
      ensures old(Owned(datasetId, userId)).None? <==> r.Failure?
      ensures r.Failure? ==> r.error == DatasetNotFound
      ensures r.Failure? ==> unchanged(this) && unchanged(cache)
      ensures r.Success? ==>
        && datasetId in old(datasets)
        && files == (if storageFails then old(files) else old(files) - {DeleteKey(old(datasets)[datasetId].s3FilePath)})
        && records == RecordsOtherThan(old(records), datasetId)
        && analytics == old(analytics) - {datasetId}
        && datasets == old(datasets) - {datasetId}
        && cache.store == if cacheFails then old(cache.store) else WithoutDataset(old(cache.store), datasetId)
    {
      var dataset := Owned(datasetId, userId);
      if dataset.None? {
        return Failure(DatasetNotFound);
      }
      var path := dataset.value.s3FilePath;
      if !storageFails {
        files := files - {DeleteKey(path)};
      }
      records := RecordsOtherThan(records, datasetId);
      analytics := analytics - {datasetId};
      datasets := datasets - {datasetId};
      cache.InvalidateDatasetCache(datasetId, cacheFails);
      r := Success(());
    }

    /** `reprocessDataset`: for an owned dataset, mark it processing, delete
        its records and its cached analytics, and return it. */
    method ReprocessDataset(datasetId: string, userId: string, cacheFails: bool)
      returns (r: Result<Dataset, string>)
      modifies this, cache
      ensures old(Owned(datasetId, userId)).None? <==> r.Failure?
      ensures r.Failure? ==> r.error == DatasetNotFound
      ensures r.Failure? ==> unchanged(this) && unchanged(cache)
      ensures r.Success? ==>
        && datasetId in old(datasets)
        && r.value == old(datasets)[datasetId].(status := Processing)
        && datasets == old(datasets)[datasetId := r.value]
        && records == RecordsOtherThan(old(records), datasetId)
        && analytics == old(analytics) && files == old(files)
        && cache.store == if cacheFails then old(cache.store) else WithoutDataset(old(cache.store), datasetId)
    {
      var dataset := Owned(datasetId, userId);
      if dataset.None? {
        return Failure(DatasetNotFound);
      }
      var updated := dataset.value.(status := Processing);
      datasets := datasets[datasetId := updated];
      records := RecordsOtherThan(records, datasetId);
      cache.InvalidateDatasetCache(datasetId, cacheFails);
      r := Success(updated);
    }

    /** The timer that reprocessing sets: the dataset, if still there, is
        marked processed. */
    method CompleteReprocess(datasetId: string)
      modifies this
      ensures datasets == WithStatus(old(datasets), datasetId, Processed)
      ensures records == old(records) && analytics == old(analytics) && files == old(files)
    {
      datasets := WithStatus(datasets, datasetId, Processed);
    }
  }
}
