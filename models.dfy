/** The value shapes shared by the services: anomalies, data points, summaries
    (backend/src/models/analytics.model.ts) and dataset documents
    (backend/src/models/dataset.model.ts). */
module Models {
  import opened Wrappers

  /** A calendar date, standing for the millisecond time `new Date(s).getTime()`
      of the date string it was parsed from; only its order matters. */
  type Date = int

  datatype Severity = Low | Medium | High

  /** `IsolationForest` is declared by the source and never produced. */
  datatype AnomalyType = ZScore | Iqr | IsolationForest

  /** One flagged observation. `zscoreSq` holds the SQUARE of the z-score
      (the model has no square root); it is present only for z-score anomalies. */
  datatype Anomaly = Anomaly(date: Date, value: real, kind: AnomalyType,
                             severity: Severity, zscoreSq: Option<real>)

  /** One observation of a metric. */
  datatype DataPoint = DataPoint(date: Date, value: real)

  /** The descriptive statistics of a series. `variance` is the population
      variance; the source stores its square root as `stdDev`. */
  datatype Summary = Summary(mean: real, median: real, variance: real,
                             min: real, max: real, count: nat, q1: real, q3: real)

  datatype DatasetStatus = Uploaded | Processing | Processed | Error

  /** A dataset document. Optional numeric fields are `None` when absent. */
  datatype Dataset = Dataset(
    id: string,
    userId: string,
    datasetName: string,
    s3FilePath: string,
    columns: seq<string>,
    status: DatasetStatus,
    timeColumn: Option<string>,
    metricColumn: Option<string>,
    recordCount: Option<int>,
    rowCount: Option<int>,
    columnCount: Option<int>,
    fileSize: Option<int>)

  /** A value read from an uploaded file: a number other than NaN, NaN, a
      string, a boolean or null. */
  datatype FieldValue = Number(x: real) | NotANumber | Text(s: string) | Bool(b: bool) | Null

  /** JavaScript truthiness of a field value. */
  predicate Truthy(v: FieldValue) {
    match v
    case Number(x) => x != 0.0
    case NotANumber => false
    case Text(s) => s != ""
    case Bool(b) => b
    case Null => false
  }

  /** The HTTP outcome of a controller: 400, 404 and 500 carry their
      message, 200 and 201 their body. */
  datatype Response<T> = BadRequest(message: string) | NotFound(message: string)
                       | ServerError(message: string) | Ok(body: T) | Created(body: T)

  function AnomalyDate(a: Anomaly): Date { a.date }

  function PointDate(p: DataPoint): Date { p.date }

  function PointValue(p: DataPoint): real { p.value }
}
