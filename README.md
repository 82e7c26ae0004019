# Analytics backend: anomaly detection, summary statistics and dataset rules

A Dafny model of the statistics and anomaly-detection engine of a small
analytics backend (Express + MongoDB + Redis + S3), and of the pure rules
around it:

- **Anomaly detection** (`AnomalyService`, anomaly.dfy). A z-score pass uses the
  population mean and variance, threshold 2.5, and severity bands above 3 and 4.
  An IQR pass uses nearest-rank quartiles, 1.5·IQR fences and 3·IQR "extreme"
  fences. A merge keeps one anomaly per date, the most severe; on a tie the
  first one seen wins (z-score before IQR). The merged result is sorted by date.
  Both passes and the merge are loops, proved against the specification
  functions `Scan`, `MergeAll` and `IsMergedReport`.
- **Summary statistics** (`SummaryStatistics`, statistics.dfy; `Sorting`,
  sorting.dfy). `calculateSummaryStats` over a sorted copy; a bound on the
  spread of a population (`SpreadBound`, spread.dfy); a worked example
  (`AnomalyExample`, example.dfy).
- **Analytics run** (`AnalyticsRun`, analytics.dfy). The error checks of
  `runAnalytics`, the loop that extracts the numeric series from the records,
  the in-place date sort of that series, and the metric-column filter of
  `getDatasetMetrics`.
- **Reports** (`Reports`, report.dfy). The per-metric loop and summary counts of
  `generateReport`, and the insight selection of `getInsights`.
- **Datasets** (`DatasetService`, dataset_service.dfy; `DatasetRoutes`,
  dataset_routes.dfy; `DatasetController`, dataset_controller.dfy). It covers:
  - the storage key and the key derived from a stored path at delete time;
  - the CSV/JSON format dispatch and the upload file filter;
  - the dataset document an upload saves, and the per-row record documents;
  - upload, delete and reprocess as state changes of a `DatasetStore`;
  - the `rowCount`/`columnCount` fallbacks of the controller.
- **Cache** (`CacheService`, cache.dfy). A class over an abstract Redis keyspace
  with get/set/del, the analytics key `analytics:<datasetId>:<metric>` and
  pattern invalidation.
- **Support modules.** `Text` (text.dfy) gives ASCII lower case, `endsWith`,
  `split`/`join` and decimal printing of a timestamp. `Models` (models.dfy)
  gives the shared datatypes. `Wrappers` (wrappers.dfy) gives Option and Result.

Numbers are `real`. Dates are `int` keys that stand for the parsed time of a
date string. A square root is never taken: the model stores the square of
each z-score and compares squares, which is exact. With variance 0 every
z-score in the source is 0/0 = NaN, never above the threshold, and
`ExceedsThreshold` is false there too. Every call to MongoDB, S3 or Redis is
replaced by its outcome, passed in as a parameter: the found dataset, a
`fails` flag, an `UploadOutcomes` value, or the `run` function of
`GenerateReport`. State that the source keeps in those stores is a field of
`DatasetStore` or `Cache`.

One consequence of the code is worth stating on its own. With the default
threshold 2.5, the z-score pass cannot flag anything in a series of seven
points or fewer. By Samuelson's inequality, no population z-score there
exceeds sqrt(n - 1) <= sqrt(6) < 2.5 (`ZScoreNeverFlagsShortSeries`). So in
the series 10, 12, 11, 13, 1000 the outlier is found by the IQR pass alone,
as a high-severity IQR anomaly (`ReadingsReport`), not by both passes. This
model follows the code.

Insight severities are `Info`, `Moderate` and `Critical`. They stand for the
source's `'info'`, `'medium'` and `'high'` and are named apart from the anomaly
`Severity`.

## Model

| member | source | states |
|---|---|---|
| AnomalyService.SeverityScore | backend/src/services/anomaly.service.ts:110-117 | the rank of a severity is 1, 2 or 3 (low, medium, high) |
| AnomalyService.DetectZScoreAnomalies | backend/src/services/anomaly.service.ts:11-44 | the loop returns nothing below three points; otherwise it returns exactly the scan of the z-score pass over the series (population mean and variance, threshold) |
| AnomalyService.DetectIQRAnomalies | backend/src/services/anomaly.service.ts:47-86 | the loop returns nothing below four points; otherwise it returns exactly the scan of the IQR pass with the nearest-rank quartiles of the sorted values |
| AnomalyService.DetectAnomalies | backend/src/services/anomaly.service.ts:89-108 | the result is strictly ascending by date, lists each entry of the merged date map once, and holds nothing else; the map is built from z-score then IQR candidates, replacing only on strictly higher severity |
| AnomalyService.SortedValuesListMap | backend/src/services/anomaly.service.ts:105-107 | sorting the values of a date-keyed map by date gives every value once, strictly ascending |
| AnomalyService.ScanIsSubsequence | backend/src/services/anomaly.service.ts:24-41 | a pass returns one anomaly per flagged point, in input order, and flags exactly the points its classification flags |
| AnomalyService.ScanMember | backend/src/services/anomaly.service.ts:24-41 | every anomaly a pass returns is the classification of one of the input points |
| AnomalyService.ZScorePassFlagsExactly | backend/src/services/anomaly.service.ts:17-39 | the z-score pass flags point i iff abs(value - mean)/stdDev > threshold, in input order; each anomaly has its date, value, type z-score, its z-score and its severity band |
| AnomalyService.IqrPassFlagsExactly | backend/src/services/anomaly.service.ts:50-81 | the IQR pass flags point i iff it is outside [q1 - 1.5·iqr, q3 + 1.5·iqr]; it is high iff also outside the 3·iqr fences, otherwise medium |
| AnomalyService.ZScoreAnomaliesCarryScore | backend/src/services/anomaly.service.ts:25-39 | every z-score anomaly has type z-score, carries its z-score, has the severity of its band, and (for a non-negative threshold) its z-score is above the threshold |
| AnomalyService.ZScoreClassification | backend/src/services/anomaly.service.ts:25-39 | the anomaly recorded for one flagged point carries (value - mean)^2 / variance and the band of that score |
| AnomalyService.ExceedsThresholdIsZScore | backend/src/services/anomaly.service.ts:17-27 | with stdDev sd > 0 and variance sd·sd, the squared test holds iff abs(value - mean)/sd > threshold, and the stored score is the square of that z-score |
| AnomalyService.ScoreIsSquaredZ | backend/src/services/anomaly.service.ts:25-35 | the stored (value - mean)^2 / variance is the square of abs((value - mean)/stdDev) |
| AnomalyService.ZScoreBands | backend/src/services/anomaly.service.ts:28-31 | the bands on the squared score are the source's bands on the z-score: high iff z > 4, else medium iff z > 3, else low |
| AnomalyService.IqrAnomaliesNeverLow | backend/src/services/anomaly.service.ts:63-81 | an IQR anomaly has type iqr, is never low, and has no z-score |
| AnomalyService.IqrQuartilesOrdered | backend/src/services/anomaly.service.ts:48-56 | for at least four points both quartile indices are in range and q1 <= q3, so the IQR is not negative |
| AnomalyService.NothingFlaggedMeansEmptyScan | backend/src/services/anomaly.service.ts:24-43 | a pass that flags no point returns the empty list |
| AnomalyService.ConstantSeriesHasNoZScoreAnomalies | backend/src/services/anomaly.service.ts:17-27 | when all values are equal the variance is 0 and the z-score pass flags nothing |
| AnomalyService.ZScoreNeverFlagsShortSeries | backend/src/services/anomaly.service.ts:11-27 | with the default threshold 2.5 the z-score pass returns nothing for a series of at most seven points |
| AnomalyService.ShortSeriesPointNotFlagged | backend/src/services/anomaly.service.ts:17-27 | in a series of at most seven points no point has a z-score above 2.5 |
| AnomalyService.ShortSeriesArithmetic | backend/src/services/anomaly.service.ts:25-27 | Samuelson's bound with n <= 7 keeps a squared deviation at most 6 variances, so it is never above 2.5^2 variances |
| AnomalyService.ConstantSeriesHasNoIqrAnomalies | backend/src/services/anomaly.service.ts:50-64 | when all values are equal q1 = q3, the IQR is 0 and no point is outside the fences |
| AnomalyService.ZScoreSeverityMonotone | backend/src/services/anomaly.service.ts:25-31 | a point farther from the mean never gets a lower z-score rank |
| AnomalyService.IqrSeverityMonotone | backend/src/services/anomaly.service.ts:58-74 | a point farther beyond a quartile never gets a lower IQR rank |
| AnomalyService.MergeKeys | backend/src/services/anomaly.service.ts:94-103 | the merged map has exactly the dates of the candidates, and each entry is a candidate stored under its own date |
| AnomalyService.MergeKeepsMaximum | backend/src/services/anomaly.service.ts:96-117 | the entry kept for a date is at least as severe as every candidate with that date |
| AnomalyService.MergeFirstMaximumWins | backend/src/services/anomaly.service.ts:96-103 | the entry kept for a date is the first candidate of maximum severity for it: every earlier candidate for that date is strictly less severe |
| AnomalyService.MergedReportProperties | backend/src/services/anomaly.service.ts:89-117 | the report covers exactly the flagged dates, one anomaly each, strictly ascending by date; each entry is a candidate of maximum severity for its date, the first such |
| AnomalyService.TiesGoToZScore | backend/src/services/anomaly.service.ts:96-101 | when a z-score candidate reaches the highest severity of its date, the kept entry is a z-score candidate |
| AnomalyExample.ReadingsSorted | backend/src/services/anomaly.service.ts:50 | the readings 10, 12, 11, 13, 1000 sort to 10, 11, 12, 13, 1000 |
| AnomalyExample.FiveQuartiles | backend/src/services/anomaly.service.ts:50-55 | with five values the quartiles are the second and fourth smallest |
| AnomalyExample.ReadingsQuartiles | backend/src/services/anomaly.service.ts:50-56 | the readings have q1 = 11 and q3 = 13 |
| AnomalyExample.ReadingsIqrScan | backend/src/services/anomaly.service.ts:58-81 | with fences 8 and 16 and extreme fences 5 and 19, only day 5 is flagged, as high |
| AnomalyExample.ReadingsIqrAnomalies | backend/src/services/anomaly.service.ts:47-86 | the IQR pass over the readings returns the one high IQR anomaly on day 5 |
| AnomalyExample.ReadingsReport | backend/src/services/anomaly.service.ts:89-108 | the merged report for the readings is exactly the high IQR anomaly on day 5; the z-score pass contributes nothing |
| AnomalyExample.SingleCandidateReport | backend/src/services/anomaly.service.ts:94-107 | a report over one candidate is that candidate alone |
| Sorting.Sort | backend/src/services/analytics.service.ts:154 | the ascending copy is sorted and a permutation of its input |
| Sorting.InsertSorted | backend/src/services/analytics.service.ts:154 | inserting into an ascending sequence keeps it ascending |
| Sorting.SortedUnique | backend/src/services/analytics.service.ts:154 | a multiset of numbers has only one ascending arrangement |
| Sorting.SortDependsOnlyOnMultiset | backend/src/services/analytics.service.ts:154 | the sorted copy depends only on the multiset of the input |
| Sorting.SortIsSortedArrangement | backend/src/services/anomaly.service.ts:50 | any ascending permutation of the input is its sorted copy |
| Sorting.SortBy | backend/src/services/anomaly.service.ts:105-107 | sorting by a key gives a permutation ascending by that key |
| Sorting.InsertBySorted | backend/src/services/anomaly.service.ts:105-107 | inserting by key into a sequence ascending by key keeps it ascending |
| Sorting.InsertByKeepsKeysDistinct | backend/src/services/anomaly.service.ts:105-107 | inserting an element with a new key keeps the keys distinct |
| Sorting.SortByStrictlySorted | backend/src/services/anomaly.service.ts:105-107 | sorting elements with distinct keys gives a strictly ascending sequence |
| SummaryStatistics.CountIsLength | backend/src/services/analytics.service.ts:155 | the count of the values is their number |
| SummaryStatistics.SquaredDeviations | backend/src/services/analytics.service.ts:169 | the sum of squared deviations is not negative, so neither is the variance |
| SummaryStatistics.CalculateSummaryStats | backend/src/services/analytics.service.ts:153-176 | count is the number of values; min and max are values and bound every value; min <= q1 <= median <= q3 <= max; min <= mean <= max |
| SummaryStatistics.SortedSummaryBounds | backend/src/services/analytics.service.ts:160-176 | over an ascending sequence the median and quartile indices are in range and min <= q1 <= median <= q3 <= max |
| SummaryStatistics.ExtremesOfSorted | backend/src/services/analytics.service.ts:154-161 | the first and last elements of the sorted copy are the least and greatest input values |
| SummaryStatistics.SumBounds | backend/src/services/analytics.service.ts:158 | a sum of values in [lo, hi] lies between count·lo and count·hi |
| SummaryStatistics.MeanWithinExtremes | backend/src/services/analytics.service.ts:158-161 | the mean lies between any lower and upper bound of the values |
| SummaryStatistics.SumConcat | backend/src/services/analytics.service.ts:158 | the sum of a concatenation is the sum of the sums |
| SummaryStatistics.SquaredDeviationsConcat | backend/src/services/analytics.service.ts:169 | the squared deviations of a concatenation add up |
| SummaryStatistics.LeaveOneOut | backend/src/services/analytics.service.ts:158-169 | removing one value takes it out of the sum, and its squared deviation out of the squared deviations |
| SummaryStatistics.SumPermutation | backend/src/services/analytics.service.ts:158 | the sum depends only on the multiset of the values |
| SummaryStatistics.SquaredDeviationsPermutation | backend/src/services/analytics.service.ts:169 | the squared deviations depend only on the multiset of the values |
| SummaryStatistics.SummaryDependsOnlyOnMultiset | backend/src/services/analytics.service.ts:153-176 | permuting the input leaves the whole unrounded summary unchanged |
| SummaryStatistics.ConstantSeriesSummary | backend/src/services/analytics.service.ts:153-176 | a series of one repeated value has that value as mean, median, min, max, q1 and q3, and variance 0 |
| SummaryStatistics.ConstantSquaredDeviations | backend/src/services/analytics.service.ts:169 | values all equal to x have no squared deviation from x |
| SummaryStatistics.FourPointQuartiles | backend/src/services/analytics.service.ts:173-176 | for 1, 2, 3, 4 the nearest-rank quartiles are q1 = 2 and q3 = 4 |
| SummaryStatistics.SortOfSorted | backend/src/services/analytics.service.ts:154 | sorting an ascending sequence leaves it as it is |
| SummaryStatistics.FourPointMeanAndMedian | backend/src/services/analytics.service.ts:158-166 | for 1, 2, 3, 4 the mean is 2.5 and the even-count median is the mean of 2 and 3 |
| SpreadBound.DeviationsFromSum | backend/src/services/anomaly.service.ts:18 | the deviations from m sum to the sum minus count·m |
| SpreadBound.DeviationSumBound | backend/src/services/anomaly.service.ts:19 | Cauchy-Schwarz: the square of the summed deviations is at most count times the squared deviations |
| SpreadBound.DeviationsAboutMean | backend/src/services/anomaly.service.ts:18 | the deviations from the mean sum to zero |
| SpreadBound.SamuelsonBound | backend/src/services/anomaly.service.ts:18-25 | Samuelson's inequality: n·(x - mean)^2 <= (n - 1)·(sum of squared deviations) for every value x |
| SpreadBound.SamuelsonAbout | backend/src/services/anomaly.service.ts:18-25 | the same bound about any point from which the deviations sum to zero |
| SpreadBound.SamuelsonFromRest | backend/src/services/anomaly.service.ts:18-25 | the same bound for one value, given the population without it |
| SpreadBound.SamuelsonStep | backend/src/services/anomaly.service.ts:18-25 | the arithmetic step of that bound |
| AnalyticsRun.ExtractSeries | backend/src/services/analytics.service.ts:39-57 | the loop pushes one point per record with a non-NaN number under the metric, in record order, and the values list is exactly the values of those points |
| AnalyticsRun.ExtractedCharacterised | backend/src/services/analytics.service.ts:42-57 | point k of the series comes from the k-th record with a number under the metric; exactly those records appear |
| AnalyticsRun.ExtractedEmptyIff | backend/src/services/analytics.service.ts:42-61 | the extracted series is empty iff no record holds a number under the metric |
| AnalyticsRun.SortByDate | backend/src/services/analytics.service.ts:70 | the in-place sort leaves the series ascending by date and a permutation of what it was |
| AnalyticsRun.InsertLast | backend/src/services/analytics.service.ts:70 | moving one point left past every later date extends the ascending prefix by one, as a permutation |
| AnalyticsRun.RunAnalytics | backend/src/services/analytics.service.ts:17-70 | the four errors in their order (not owned, not processed, no records, no numeric values), and an error iff one of them applies, so a processed dataset with a numeric value always succeeds; on success the summary of the extracted values, the merged anomaly report of the unsorted series, and the series sorted by date as a permutation |
| AnalyticsRun.MetricColumnsKeeps | backend/src/services/analytics.service.ts:143-150 | the filter keeps exactly the columns whose lower case is not excluded, each as often as it occurs |
| AnalyticsRun.MetricColumnsConcat | backend/src/services/analytics.service.ts:144-148 | the filter commutes with concatenation, so kept columns keep their order |
| AnalyticsRun.ExcludedIgnoresCase | backend/src/services/analytics.service.ts:146-147 | "Date" and "ID" are excluded: the test is on the lower-cased name |
| AnalyticsRun.GetDatasetMetrics | backend/src/services/analytics.service.ts:132-151 | not owned iff the not-found error; otherwise exactly the non-excluded columns |
| Reports.SucceededPlusFailed | backend/src/controllers/report.controller.ts:54-57 | every entry either succeeded or failed, so successful + failed = total |
| Reports.Successes | backend/src/controllers/report.controller.ts:56-59 | the successful entries are exactly the entries whose run succeeded |
| Reports.AnomalyTotalOverSuccesses | backend/src/controllers/report.controller.ts:56-60 | the anomaly total over all entries equals the total over the successful ones, all of which count |
| Reports.GenerateReport | backend/src/controllers/report.controller.ts:6-62 | 400 iff the id is missing or empty or metrics is not a list; 404 for a dataset the user does not own; otherwise always 200 with the requested id and the dataset's name, one entry per requested metric in request order, each with its own run's outcome, and the counts and anomaly total over the successful entries |
| Reports.OfSeverityMembers | backend/src/controllers/report.controller.ts:116-117 | the severity filter keeps exactly the anomalies of that severity |
| Reports.FirstThree | backend/src/controllers/report.controller.ts:125 | `slice(0, 3)` gives a prefix of at most three, the whole list when it is that short |
| Reports.PercentChange | backend/src/controllers/report.controller.ts:150 | a nonzero first value gives a finite change of the sign of (last - first)/first; a zero first value gives NaN iff last is zero, plus infinity iff last is positive |
| Reports.TrendOf | backend/src/controllers/report.controller.ts:147-160 | a trend exists iff there are at least two points and abs(change) > 10; upward iff the change is positive; critical iff abs(change) > 50, else moderate |
| Reports.OfSeverityNonEmpty | backend/src/controllers/report.controller.ts:116-120 | the severity filter is non-empty iff some anomaly has that severity |
| Reports.AnomalyPartMeaning | backend/src/controllers/report.controller.ts:115-144 | the anomaly part has at most two insights; it is the "no anomalies" insight alone iff there are none; it holds the critical insight iff some anomaly is high and the moderate one iff some is medium, nothing else, and the critical one first |
| Reports.AnomalyPartTitles | backend/src/controllers/report.controller.ts:115-144 | read by title, the anomaly part has "No Anomalies Detected" iff there are none, the critical title iff some anomaly is high (with the first three high ones), the moderate title iff some is medium |
| Reports.AnomalyInsights | backend/src/controllers/report.controller.ts:115-144 | the pushed list is exactly `AnomalyPart` of the anomalies; by title, "No Anomalies Detected" iff no anomalies, the critical insight iff some anomaly is high, with the first three high anomalies, and the moderate insight iff some anomaly is medium |
| Reports.GetInsights | backend/src/controllers/report.controller.ts:79-160 | 400 iff the metric is missing; 404 when there are no analytics; otherwise always 200 with exactly the overview, then `AnomalyPart` of the anomalies, then the trend insight iff the series has a trend |
| Reports.AnomalyTitleOnlyInPart | backend/src/controllers/report.controller.ts:107-160 | an anomaly title occurs in the list iff it occurs among the anomaly insights |
| Reports.AssembledInsights | backend/src/controllers/report.controller.ts:107-160 | in the assembled list, the critical details and the trend come from the anomaly part and the trend alone |
| Text.ToLower | backend/src/routes/dataset.routes.ts:27 | lower-casing keeps the length and lower-cases each character |
| Text.LowerKeepsLowerSuffix | backend/src/routes/dataset.routes.ts:26-28 | a name that ends with a lower-case suffix still ends with it once lower-cased |
| Text.NatToString | backend/src/services/dataset.service.ts:19-20 | a printed timestamp is a non-empty string of decimal digits |
| Text.JoinSplit | backend/src/services/dataset.service.ts:147 | joining the pieces of a split gives back the string |
| Text.SplitWithoutSeparator | backend/src/services/dataset.service.ts:147 | a string without the separator splits into itself alone |
| Text.SplitAround | backend/src/services/dataset.service.ts:147 | splitting at a separator splits the two sides separately |
| Text.SplitJoin | backend/src/services/dataset.service.ts:147 | splitting the join of separator-free pieces gives back the pieces |
| DatasetService.LastThree | backend/src/services/dataset.service.ts:147 | `slice(-3)` keeps three elements, or all of them when there are fewer |
| DatasetService.StorageKeySegments | backend/src/services/dataset.service.ts:20 | with no slash in the user id or the name, the key splits into "datasets", the user id and "timestamp-name" |
| DatasetService.DeleteKeyLocal | backend/src/services/dataset.service.ts:143-145 | a `local://` path is deleted under the path without that prefix |
| DatasetService.DeleteKeyRoundTrip | backend/src/services/dataset.service.ts:147-148 | for any other stored path ending in the key built at line 20, the last three segments give back the key, when neither user id nor name holds a slash |
| DatasetService.DetectFormat | backend/src/services/dataset.service.ts:32-38 | the dispatch fails only with the unsupported-format message |
| DatasetService.DetectFormatAccepts | backend/src/services/dataset.service.ts:32-38 | the dispatch succeeds iff the mimetype is text/csv or application/json or the exact-case name ends with .csv or .json; a CSV mimetype always picks CSV |
| DatasetService.NewDataset | backend/src/services/dataset.service.ts:41-53 | a new dataset has status processing, recordCount = rowCount = the number of parsed rows, and columnCount = the number of columns |
| DatasetService.RecordDocumentsMirrorRows | backend/src/services/dataset.service.ts:82-98 | one document per row, in order, each tagged with the dataset and holding its row; a timestamp only for a truthy value in a named time column, and then its parsed date |
| DatasetService.EmptyTimeColumnGivesNoTimestamps | backend/src/services/dataset.service.ts:86 | an empty time-column name is falsy, so no document gets a timestamp |
| DatasetService.RecordsOtherThanKeeps | backend/src/services/dataset.service.ts:156 | deleting a dataset's records removes exactly its documents |
| DatasetService.RecordsOtherThanConcat | backend/src/services/dataset.service.ts:156 | the deletion commutes with concatenation, so the kept documents keep their order |
| DatasetService.RecordsOtherThanOwn | backend/src/services/dataset.service.ts:156 | nothing is left of documents that all belong to the dataset |
| DatasetService.DeleteUndoesProcessing | backend/src/services/dataset.service.ts:156 | deleting a dataset's records removes all the documents processing inserted for it, and no other document |
| DatasetService.WithStatus | backend/src/services/dataset.service.ts:104-116 | the status update changes only that dataset's status; a missing id changes nothing |
| DatasetService.DatasetStore.Owned | backend/src/services/dataset.service.ts:124-129 | the lookup finds a dataset iff one with that id belongs to the user |
| DatasetService.DatasetStore.UploadDataset | backend/src/services/dataset.service.ts:10-71 | fails iff `UploadFailure` names an error (upload, dispatch, parse or save, the first in that order), and then with that error; on success the new dataset is saved and its file is stored; on failure nothing is saved and the file key is deleted unless that delete fails |
| DatasetService.DatasetStore.ProcessRecords | backend/src/services/dataset.service.ts:73-118 | on success the documents of the rows are appended and the dataset becomes processed; when the insert fails it becomes error |
| DatasetService.DatasetStore.DeleteDataset | backend/src/services/dataset.service.ts:131-166 | fails with "Dataset not found or access denied" iff the user does not own it, changing nothing; otherwise the file (unless that delete fails), the records, the analytics, the dataset and its cache entries are removed |
| DatasetService.DatasetStore.ReprocessDataset | backend/src/services/dataset.service.ts:168-196 | fails iff not owned, changing nothing; otherwise the dataset becomes processing, its records and cache entries are removed, and it is returned |
| DatasetService.DatasetStore.CompleteReprocess | backend/src/services/dataset.service.ts:190-193 | the timer marks the dataset processed and changes nothing else |
| DatasetRoutes.FileFilterAccepts | backend/src/routes/dataset.routes.ts:21-34 | a file is accepted iff its mimetype is text/csv or application/json, or its lower-cased name ends with .csv or .json; otherwise the callback receives "Only CSV and JSON files are allowed" |
| DatasetRoutes.MimetypeSuffices | backend/src/routes/dataset.routes.ts:25-30 | an allowed mimetype is accepted whatever the name |
| DatasetRoutes.ExtensionSuffices | backend/src/routes/dataset.routes.ts:26-30 | an allowed extension, in any letter case, is accepted whatever the mimetype |
| DatasetRoutes.DispatchableFilesPass | backend/src/routes/dataset.routes.ts:21-34 | every file the service can dispatch passes the filter |
| DatasetRoutes.UppercaseExtensionPassesFilterOnly | backend/src/routes/dataset.routes.ts:26-28 | "x.CSV" with mimetype application/octet-stream passes the case-insensitive filter but the case-sensitive dispatch refuses it |
| DatasetController.TransformFallbacks | backend/src/controllers/dataset.controller.ts:85-90 | rowCount is the stored count if nonzero, else recordCount if nonzero, else 0; columnCount is the stored count if nonzero, else the number of columns; every other field is unchanged |
| DatasetController.TransformIdempotent | backend/src/controllers/dataset.controller.ts:85-90 | transforming twice is transforming once |
| DatasetController.FallbacksRecoverUploadCounts | backend/src/controllers/dataset.controller.ts:85-90 | a stored upload, which has lost rowCount and columnCount, gets back the parsed row and column counts |
| DatasetController.TransformAllPreservesOrder | backend/src/controllers/dataset.controller.ts:47-54 | the list transform is one to one and keeps the order |
| DatasetController.GetDataset | backend/src/controllers/dataset.controller.ts:70-95 | 404 "Dataset not found" iff not owned; otherwise the transformed dataset |
| DatasetController.UploadDataset | backend/src/controllers/dataset.controller.ts:5-39 | 400 "No file uploaded" iff there is no file, changing nothing; with a file, 201 iff the service's upload has no failure, with the dataset the service saved and its file key stored; otherwise 500 with the service's error, or "Failed to upload dataset" for an empty one, with the key deleted unless that delete fails; records and analytics never change |
| CacheService.WithoutDataset | backend/src/services/cache.service.ts:45-53 | the keyspace after invalidation keeps exactly the keys the pattern does not match, with their entries |
| CacheService.Cache.Get | backend/src/services/cache.service.ts:4-12 | nothing on error; otherwise the stored value iff the key is present |
| CacheService.Cache.Set | backend/src/services/cache.service.ts:14-20 | stores the value with its TTL, 3600 by default; an error changes nothing |
| CacheService.Cache.Del | backend/src/services/cache.service.ts:22-28 | removes the key; an error changes nothing |
| CacheService.Cache.GetAnalytics | backend/src/services/cache.service.ts:35-38 | nothing when the call fails; a value found is the one stored under the analytics key, and a stored value is found unless the call fails |
| CacheService.Cache.SetAnalytics | backend/src/services/cache.service.ts:40-43 | stores under the analytics key with TTL 7200 |
| CacheService.Cache.InvalidateDatasetCache | backend/src/services/cache.service.ts:45-54 | removes exactly the keys that `analytics:<id>:*` matches and keeps the others; an error changes nothing |
| CacheService.UpToColonOf | backend/src/services/cache.service.ts:31-33 | a colon-free id is recovered from the text that follows it |
| CacheService.ColonDelimited | backend/src/services/cache.service.ts:31-33 | two colon-free ids each followed by a colon, one a prefix of the other's key, are equal |
| CacheService.AnalyticsKeyInjective | backend/src/services/cache.service.ts:31-33 | with colon-free ids the key determines the dataset and the metric |
| CacheService.AnalyticsKeyMatches | backend/src/services/cache.service.ts:31-47 | every key built for a dataset matches that dataset's invalidation pattern |
| CacheService.InvalidationIsolated | backend/src/services/cache.service.ts:45-47 | with colon-free ids, invalidating one dataset never matches a key built for another |
| CacheService.InvalidationKeepsOthers | backend/src/services/cache.service.ts:45-53 | invalidation removes a dataset's analytics and keeps every other dataset's |

## Left out

- I/O. Every MongoDB, S3 and Redis call is replaced by its outcome, passed as a parameter: the found dataset, a `fails` flag, `UploadOutcomes`, or the `run` function.
- Asynchrony and timing. Background processing is a separate call (`ProcessRecords`); the two-second timer of reprocessing is a separate call (`CompleteReprocess`).
- Races between a reprocessing timer and a delete are not modelled.
- Redis TTL expiry. An entry records its TTL but never expires.
- The cache-hit short-circuit at the start of `runAnalytics` and `getAnalytics`. It returns a cached value before any check; the model starts after the lookup.
- Storing the analytics document and caching it (analytics.service.ts:72-96). The stored set of analytics exists only for delete.
- `getAnalytics` (analytics.service.ts:101-130) is not modelled on its own. `GetInsights` takes its result as a parameter, so the ownership error it raises, which `getInsights` turns into a 500, is not modelled.
- Floating point: `Math.sqrt`, the two-decimal rounding of mean, median and stdDev (analytics.service.ts:179-181), and NaN or Infinity among the input values. Numbers are exact reals; the only infinities modelled are those of the percent change.
- CalculateSummaryStats: does not return `stdDev`, because a square root is not modelled; the variance stands for it.
- Date handling. Date strings, `new Date(...)`, `toISOString` and the fallback from record timestamp to time column to creation date (analytics.service.ts:48-50) are out. A point's date is an integer key, and the anomaly map is keyed by that parsed date, not by the date string. So two differently written strings for the same instant are one key here and two in the source.
- Date parsing of record timestamps is the `parseDate` parameter.
- JavaScript's sort stability for equal dates. The date sort's result is specified as an ascending permutation, not a particular order of equal dates.
- The wording of insight descriptions, the report id and `generatedAt`. These use the clock and number formatting.
- The file parsers (csvParser.ts) and the 50 MB upload limit of the middleware. A parse result is a parameter.
- Mongoose schema stripping. The dataset schema has no `rowCount` or `columnCount` field (models/dataset.model.ts:16-31), so these are lost on save. This is shown by `FallbacksRecoverUploadCounts`, not applied inside `UploadDataset`.
- Partial inserts of `insertMany`. An insert either succeeds whole or fails whole.
- `getUserDatasets`' ordering by upload time (dataset.service.ts:120-122). The controller's list transform is modelled over any list.
- Glob metacharacters in a dataset id. The Redis pattern `analytics:<id>:*` is modelled as a prefix test.
- Text.ToLower: ASCII letters only; the source lower-cases all of Unicode.
- The model's `Response` datatype stands for an HTTP status with its JSON body. The `success` flags and other Express plumbing are not modelled.
- The 500 answers that the controllers give when the service throws after the first checks are not modelled.
- Authentication. The user id is a parameter.
- Reports.GenerateReport: `run` is a function of the metric alone, so a metric requested twice in one report gets the same outcome both times. In the source the second run could instead find the first one's result in the cache.
- DatasetService.DatasetStore.UploadDataset: the new dataset's id is a parameter, not a freshly generated ObjectId, so an id already in `datasets` would be overwritten; the source's fresh id never collides, and the model does not promise freshness.
- DatasetService.DatasetStore.CompleteReprocess: marks only the status. The source saves the whole document captured when reprocessing started.
- The `IsolationForest` anomaly type is declared, as in the source, but no operation produces it.
