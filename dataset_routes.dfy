/** The upload filter of backend/src/routes/dataset.routes.ts: which files the
    upload middleware lets through to the dataset service. */
module DatasetRoutes {
  import opened Wrappers
  import opened Text
  import opened DatasetService

  const AllowedTypes: seq<string> := ["text/csv", "application/json"]
  const AllowedExtensions: seq<string> := [".csv", ".json"]
  const OnlyCsvAndJson := "Only CSV and JSON files are allowed"

  /** The extension test: the lower-cased name ends with an allowed extension. */
  predicate HasValidExtension(originalName: string) {
    exists i :: 0 <= i < |AllowedExtensions| && EndsWith(ToLower(originalName), AllowedExtensions[i])
  }

  /** `fileFilter`: accept when the mimetype or the extension is allowed;
      otherwise pass the error to the callback. */
  function FileFilter(mimetype: string, originalName: string): (r: Result<bool, string>)
  {
    if mimetype in AllowedTypes || HasValidExtension(originalName) then Success(true)
    else Failure(OnlyCsvAndJson)
  }

  /** The filter accepts exactly the files whose mimetype is `text/csv` or
      `application/json`, or whose lower-cased name ends with `.csv` or
      `.json`; every other file is refused with the one message. */
  lemma FileFilterAccepts(mimetype: string, originalName: string)
    ensures var r := FileFilter(mimetype, originalName);
      && (r == Success(true)
          <==> mimetype == "text/csv" || mimetype == "application/json"
               || EndsWith(ToLower(originalName), ".csv") || EndsWith(ToLower(originalName), ".json"))
      && (r.Failure? ==> r.error == OnlyCsvAndJson)
  {
    if EndsWith(ToLower(originalName), ".csv") {
      assert EndsWith(ToLower(originalName), AllowedExtensions[0]);
    }
    if EndsWith(ToLower(originalName), ".json") {
      assert EndsWith(ToLower(originalName), AllowedExtensions[1]);
    }
  }

  /** An allowed mimetype suffices, whatever the name. */
  lemma MimetypeSuffices(mimetype: string, originalName: string)
    requires mimetype in AllowedTypes
    ensures FileFilter(mimetype, originalName) == Success(true)
  {
  }

  /** An allowed extension suffices, whatever the mimetype, and in any
      letter case. */
  lemma ExtensionSuffices(mimetype: string, originalName: string)
    requires EndsWith(ToLower(originalName), ".csv") || EndsWith(ToLower(originalName), ".json")
    ensures FileFilter(mimetype, originalName) == Success(true)
  {
    FileFilterAccepts(mimetype, originalName);
  }

  /** Every upload the service's dispatch can handle passes the filter: an
      exact-case `.csv` or `.json` also ends so once lower-cased. */
  lemma DispatchableFilesPass(mimetype: string, originalName: string)
    requires DetectFormat(mimetype, originalName).Success?
    ensures FileFilter(mimetype, originalName) == Success(true)
  {
    DetectFormatAccepts(mimetype, originalName);
    if mimetype !in AllowedTypes {
      if EndsWith(originalName, ".csv") {
        assert ToLower(".csv") == ".csv";
        LowerKeepsLowerSuffix(originalName, ".csv");
      } else {
        assert ToLower(".json") == ".json";
        LowerKeepsLowerSuffix(originalName, ".json");
      }
      ExtensionSuffices(mimetype, originalName);
    }
  }

  /** The filter is case-insensitive but the dispatch is not: a file named
      `x.CSV` sent with an unlisted mimetype passes the filter and is then
      refused as an unsupported format. */
  lemma UppercaseExtensionPassesFilterOnly()
    ensures FileFilter("application/octet-stream", "x.CSV") == Success(true)
    ensures DetectFormat("application/octet-stream", "x.CSV") == Failure(UnsupportedFormat)
  {
    assert FileFilter("application/octet-stream", "x.CSV") == Success(true) by {
      LowerOfUppercaseName();
      ExtensionSuffices("application/octet-stream", "x.CSV");
    }
    assert !EndsWith("x.CSV", ".csv") by {
      assert "x.CSV"[2] != ".csv"[1];
    }
    assert !EndsWith("x.CSV", ".json");
  }

  lemma LowerOfUppercaseName()
    ensures EndsWith(ToLower("x.CSV"), ".csv")
  {
    var s := "x.CSV";
    assert ToLower(s) == [LowerChar(s[0]), LowerChar(s[1]), LowerChar(s[2]), LowerChar(s[3]), LowerChar(s[4])];
  }
}
